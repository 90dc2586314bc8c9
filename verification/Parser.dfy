/**
 * The palette's command line: a quoting tokenizer, the command table and a printer that inverts them
 * (`src/domain/parser.rs`).
 */
module Parser {
  import opened Wrappers
  import opened Names
  import opened Decimal

  // ------------------------------------------------------------------
  // Commands
  // ------------------------------------------------------------------

  datatype Action =
    | Help | Themes | ClearSceneProfile | ToggleStream | ToggleRecord | Status | ObsStatus | ServerStatus
    | ReloadConfig | DumpConfig | ValidateConfig | Reconnect | Connect | ShutdownServer | Quit

  datatype TargetAction =
    | SetScene | SetProfile | SetSceneCollection | SetSceneProfile | DeleteSceneProfile | Mute | Unmute | ToggleMute

  datatype Command =
    | Plain(action: Action)
    | On(targetAction: TargetAction, target: string)
    | SetVolume(target: string, percent: nat)

  /** A row of the command table: what its spelling builds. */
  datatype Row = PlainRow(action: Action) | TargetRow(targetAction: TargetAction) | VolumeRow

  datatype ParseError =
    | EmptyCommand
    | UnterminatedQuote
    | BadCommandName(reason: NameError)
    | UnknownCommand(text: string)
    | WrongArity(row: Row, got: nat)
    | QuotedPercent
    | NotAPercent(text: string)
    | PercentTooLarge(value: nat)
    | BadTarget(reason: NameError)

  function FindRow(name: string): Option<Row> {
    match name
    case "help" => Some(PlainRow(Help))
    case "themes" | "theme" | "settings" => Some(PlainRow(Themes))
    case "scene" | "set-scene" => Some(TargetRow(SetScene))
    case "profile" | "set-profile" => Some(TargetRow(SetProfile))
    case "collection" | "set-collection" | "scene-collection" => Some(TargetRow(SetSceneCollection))
    case "scene-profile" | "set-scene-profile" => Some(TargetRow(SetSceneProfile))
    case "scene-profile-off" | "scene-profile-clear" => Some(PlainRow(ClearSceneProfile))
    case "scene-profile-delete" | "delete-scene-profile" => Some(TargetRow(DeleteSceneProfile))
    case "mute" => Some(TargetRow(Mute))
    case "unmute" => Some(TargetRow(Unmute))
    case "toggle-mute" => Some(TargetRow(ToggleMute))
    case "vol" | "volume" => Some(VolumeRow)
    case "stream" => Some(PlainRow(ToggleStream))
    case "rec" | "record" => Some(PlainRow(ToggleRecord))
    case "status" => Some(PlainRow(Status))
    case "obs-status" => Some(PlainRow(ObsStatus))
    case "server-status" => Some(PlainRow(ServerStatus))
    case "reload-config" => Some(PlainRow(ReloadConfig))
    case "dump-config" => Some(PlainRow(DumpConfig))
    case "validate-config" => Some(PlainRow(ValidateConfig))
    case "reconnect" => Some(PlainRow(Reconnect))
    case "connect" => Some(PlainRow(Connect))
    case "shutdown-server" => Some(PlainRow(ShutdownServer))
    case "quit" | "exit" => Some(PlainRow(Quit))
    case _ => None
  }

  function Canonical(row: Row): string {
    match row
    case PlainRow(Help) => "help"
    case PlainRow(Themes) => "themes"
    case TargetRow(SetScene) => "scene"
    case TargetRow(SetProfile) => "profile"
    case TargetRow(SetSceneCollection) => "collection"
    case TargetRow(SetSceneProfile) => "scene-profile"
    case PlainRow(ClearSceneProfile) => "scene-profile-off"
    case TargetRow(DeleteSceneProfile) => "scene-profile-delete"
    case TargetRow(Mute) => "mute"
    case TargetRow(Unmute) => "unmute"
    case TargetRow(ToggleMute) => "toggle-mute"
    case VolumeRow => "vol"
    case PlainRow(ToggleStream) => "stream"
    case PlainRow(ToggleRecord) => "rec"
    case PlainRow(Status) => "status"
    case PlainRow(ObsStatus) => "obs-status"
    case PlainRow(ServerStatus) => "server-status"
    case PlainRow(ReloadConfig) => "reload-config"
    case PlainRow(DumpConfig) => "dump-config"
    case PlainRow(ValidateConfig) => "validate-config"
    case PlainRow(Reconnect) => "reconnect"
    case PlainRow(Connect) => "connect"
    case PlainRow(ShutdownServer) => "shutdown-server"
    case PlainRow(Quit) => "quit"
  }

  /** The other spellings a row of the table lists. */
  function OtherSpellings(row: Row): seq<string> {
    match row
    case PlainRow(Themes) => ["theme", "settings"]
    case TargetRow(SetScene) => ["set-scene"]
    case TargetRow(SetProfile) => ["set-profile"]
    case TargetRow(SetSceneCollection) => ["set-collection", "scene-collection"]
    case TargetRow(SetSceneProfile) => ["set-scene-profile"]
    case PlainRow(ClearSceneProfile) => ["scene-profile-clear"]
    case TargetRow(DeleteSceneProfile) => ["delete-scene-profile"]
    case VolumeRow => ["volume"]
    case PlainRow(ToggleRecord) => ["record"]
    case PlainRow(Quit) => ["exit"]
    case _ => []
  }

  function Arity(row: Row): nat {
    match row case PlainRow(_) => 0 case TargetRow(_) => 1 case VolumeRow => 2
  }

  /** Each row is found by its own canonical spelling, which is a plain lower-case word. */
  lemma {:induction false} CanonicalFindsRow(row: Row)
    ensures FindRow(Canonical(row)) == Some(row)
  {
  }

  /** A row is found by its canonical spelling, by the others it lists, and by nothing else. */
  lemma {:induction false} SpellingsFindRow(name: string, row: Row)
    ensures FindRow(name) == Some(row) <==> name == Canonical(row) || name in OtherSpellings(row)
  {
    CanonicalFindsRow(row);
    FoundIsSpelled(name, row);
    OtherFindsRow(name, row);
  }

  lemma {:induction false} FoundIsSpelled(name: string, row: Row)
    ensures FindRow(name) == Some(row) ==> name == Canonical(row) || name in OtherSpellings(row)
  {
    if row.PlainRow? { FoundPlain(name, row.action); } else { FoundOther(name, row); }
  }

  lemma {:induction false} FoundPlain(name: string, action: Action)
    ensures FindRow(name) == Some(PlainRow(action)) ==>
              name == Canonical(PlainRow(action)) || name in OtherSpellings(PlainRow(action))
  {
  }

  lemma {:induction false} FoundOther(name: string, row: Row)
    requires !row.PlainRow?
    ensures FindRow(name) == Some(row) ==> name == Canonical(row) || name in OtherSpellings(row)
  {
  }

  lemma {:induction false} OtherFindsRow(name: string, row: Row)
    ensures name in OtherSpellings(row) ==> FindRow(name) == Some(row)
  {
  }

  predicate IsWordChar(c: char) {
    'a' <= c <= 'z' || c == '-'
  }

  predicate IsWord(s: string) {
    0 < |s| <= 20 && 'a' <= s[0] <= 'z' && forall i :: 0 <= i < |s| ==> IsWordChar(s[i])
  }

  predicate AboutDaemon(action: Action) {
    || action.ReloadConfig? || action.DumpConfig? || action.ValidateConfig? || action.Reconnect? || action.Connect?
    || action.ShutdownServer? || action.Quit?
  }

  lemma {:induction false} DaemonActionIsWord(action: Action)
    requires AboutDaemon(action)
    ensures IsWord(Canonical(PlainRow(action)))
  {
  }

  lemma {:induction false} OtherActionIsWord(action: Action)
    requires !AboutDaemon(action)
    ensures IsWord(Canonical(PlainRow(action)))
  {
  }

  lemma {:induction false} TargetActionIsWord(action: TargetAction)
    ensures IsWord(Canonical(TargetRow(action)))
  {
  }

  lemma {:induction false} CanonicalIsWord(row: Row)
    ensures IsWord(Canonical(row))
  {
    match row
    case PlainRow(a) => if AboutDaemon(a) { DaemonActionIsWord(a); } else { OtherActionIsWord(a); }
    case TargetRow(a) => TargetActionIsWord(a);
    case VolumeRow =>
  }

  // ------------------------------------------------------------------
  // Tokens
  // ------------------------------------------------------------------

  datatype Token = Token(text: string, quoted: bool)

  /** What the character loop carries: finished tokens, the one being built, and the quote that is open. */
  datatype Lexer = Lexer(tokens: seq<Token>, current: string, quoted: bool, open: Option<char>)

  const START := Lexer([], "", false, None)

  predicate IsQuote(c: char) {
    c == '"' || c == '\''
  }

  predicate IsBlank(c: char) {
    c == ' ' || c == '\t'
  }

  /** Empty tokens are dropped, and then their quoted mark stays for the next one. */
  function Flush(lx: Lexer): Lexer {
    if lx.current == "" then lx
    else Lexer(lx.tokens + [Token(lx.current, lx.quoted)], "", false, lx.open)
  }

  /** One character that does not start an escape. */
  function Feed(lx: Lexer, c: char): Lexer {
    if IsQuote(c) then
      if lx.open == Some(c) then lx.(open := None, quoted := true)
      else if lx.open.Some? then lx.(current := lx.current + [c])
      else lx.(open := Some(c), quoted := true)
    else if IsBlank(c) && lx.open.None? then Flush(lx)
    else lx.(current := lx.current + [c])
  }

  /** An escape works only inside quotes, and one at the very end of the line stands for nothing. */
  function Lex(lx: Lexer, input: string): Lexer
    decreases |input|
  {
    if input == "" then lx
    else if input[0] == '\\' && lx.open.Some? then
      if |input| == 1 then lx else Lex(lx.(current := lx.current + [input[1]]), input[2..])
    else Lex(Feed(lx, input[0]), input[1..])
  }

  function Tokens(input: string): Result<seq<Token>, ParseError> {
    var lx := Lex(START, input);
    if lx.open.Some? then Err(UnterminatedQuote) else Ok(Flush(lx).tokens)
  }

  method Tokenize(input: string) returns (r: Result<seq<Token>, ParseError>)
    ensures r == Tokens(input)
  {
    var tokens: seq<Token>, current, currentQuoted := [], "", false;
    var openQuote: Option<char> := None;
    var i := 0;
    while i < |input|
      invariant 0 <= i <= |input|
      invariant Lex(Lexer(tokens, current, currentQuoted, openQuote), input[i..]) == Lex(START, input)
    {
      var c := input[i];
      assert input[i..][1..] == input[i + 1..];
      if IsQuote(c) {
        if openQuote == Some(c) { openQuote, currentQuoted := None, true; }
        else if openQuote.Some? { current := current + [c]; }
        else { openQuote, currentQuoted := Some(c), true; }
      } else if c == '\\' && openQuote.Some? {
        if i + 1 < |input| {
          assert input[i..][2..] == input[i + 2..];
          current := current + [input[i + 1]];
          i := i + 1;
        }
      } else if IsBlank(c) && openQuote.None? {
        if current != "" {
          tokens := tokens + [Token(current, currentQuoted)];
          current, currentQuoted := "", false;
        }
      } else {
        current := current + [c];
      }
      i := i + 1;
    }
    if openQuote.Some? { return Err(UnterminatedQuote); }
    if current != "" { tokens := tokens + [Token(current, currentQuoted)]; }
    return Ok(tokens);
  }

  // ------------------------------------------------------------------
  // Parsing
  // ------------------------------------------------------------------

  predicate IsPrefix(c: char) {
    c == '/' || c == ':'
  }

  /** Both palette prefixes are stripped, however many there are. */
  function StripPrefixes(s: string): string {
    if s != "" && IsPrefix(s[0]) then StripPrefixes(s[1..]) else s
  }

  function CheckedTarget(text: string): Result<string, ParseError> {
    match CheckedName(text) case Ok(t) => Ok(t) case Err(e) => Err(BadTarget(e))
  }

  function ParseVolumePercent(text: string): Result<nat, ParseError> {
    if Trim(text) != text then Err(NotAPercent(text))
    else
      match ParseU64(text)
      case None => Err(NotAPercent(text))
      case Some(n) => if n > 100 then Err(PercentTooLarge(n)) else Ok(n)
  }

  function Build(row: Row, args: seq<Token>): Result<Command, ParseError>
    requires |args| == Arity(row)
  {
    match row
    case PlainRow(action) => Ok(Plain(action))
    case TargetRow(action) =>
      (match CheckedTarget(args[0].text) case Err(e) => Err(e) case Ok(t) => Ok(On(action, t)))
    case VolumeRow =>
      if args[1].quoted then Err(QuotedPercent)
      else
        match ParseVolumePercent(args[1].text)
        case Err(e) => Err(e)
        case Ok(percent) =>
          match CheckedTarget(args[0].text)
          case Err(e) => Err(e)
          case Ok(t) => Ok(SetVolume(t, percent))
  }

  function ParseTokens(tokens: seq<Token>): Result<Command, ParseError> {
    if tokens == [] then Err(EmptyCommand)
    else
      match NormalizedName(tokens[0].text)
      case Err(reason) => Err(BadCommandName(reason))
      case Ok(name) =>
        match FindRow(name)
        case None => Err(UnknownCommand(tokens[0].text))
        case Some(row) =>
          if |tokens| - 1 != Arity(row) then Err(WrongArity(row, |tokens| - 1)) else Build(row, tokens[1..])
  }

  /** The line that is left after the palette's prefix. */
  function ParseLine(line: string): Result<Command, ParseError> {
    if line == "" then Err(EmptyCommand)
    else match Tokens(line) case Err(e) => Err(e) case Ok(tokens) => ParseTokens(tokens)
  }

  function Parse(input: string): Result<Command, ParseError> {
    ParseLine(StripPrefixes(Trim(input)))
  }

  // ------------------------------------------------------------------
  // Printing
  // ------------------------------------------------------------------

  datatype Argument = Quoted(text: string) | Bare(text: string)

  /** Inside double quotes only the double quote and the backslash need escaping. */
  function Escape(text: string): string {
    if text == "" then ""
    else (if text[0] == '"' || text[0] == '\\' then ['\\', text[0]] else [text[0]]) + Escape(text[1..])
  }

  function Spelled(a: Argument): string {
    match a case Quoted(text) => ['"'] + Escape(text) + ['"'] case Bare(text) => text
  }

  function TokenOf(a: Argument): Token {
    Token(a.text, a.Quoted?)
  }

  function TokensOf(args: seq<Argument>): (r: seq<Token>)
    ensures |r| == |args| && forall i :: 0 <= i < |r| ==> r[i] == TokenOf(args[i])
  {
    seq(|args|, i requires 0 <= i < |args| => TokenOf(args[i]))
  }

  function Line(args: seq<Argument>): string {
    if args == [] then ""
    else if |args| == 1 then Spelled(args[0])
    else Spelled(args[0]) + [' '] + Line(args[1..])
  }

  function RowOf(c: Command): Row {
    match c case Plain(a) => PlainRow(a) case On(a, _) => TargetRow(a) case SetVolume(_, _) => VolumeRow
  }

  function Arguments(c: Command): seq<Argument> {
    match c
    case Plain(_) => []
    case On(_, t) => [Quoted(t)]
    case SetVolume(t, percent) => [Quoted(t), Bare(Print(percent))]
  }

  function PrintCommand(c: Command): string {
    Line([Bare(Canonical(RowOf(c)))] + Arguments(c))
  }

  // ------------------------------------------------------------------
  // The tokenizer undoes the printer
  // ------------------------------------------------------------------

  /** A word with nothing in it that means anything to the tokenizer. */
  predicate IsPlain(text: string) {
    forall i :: 0 <= i < |text| ==> !IsQuote(text[i]) && !IsBlank(text[i])
  }

  ghost predicate Sayable(a: Argument) {
    a.Bare? ==> IsPlain(a.text)
  }

  lemma {:induction false} LexOne(lx: Lexer, c: char, rest: string)
    requires c != '\\' || lx.open.None?
    ensures Lex(lx, [c] + rest) == Lex(Feed(lx, c), rest)
  {
  }

  lemma {:induction false} LexEscape(lx: Lexer, c: char, rest: string)
    requires lx.open.Some?
    ensures Lex(lx, ['\\', c] + rest) == Lex(lx.(current := lx.current + [c]), rest)
  {
  }

  lemma {:induction false} Shift(current: string, text: string)
    requires text != ""
    ensures current + [text[0]] + text[1..] == current + text
  {
  }

  lemma {:induction false} EscapeShift(text: string, rest: string)
    requires text != ""
    ensures Escape(text) + rest ==
              (if text[0] == '"' || text[0] == '\\' then ['\\', text[0]] else [text[0]]) + (Escape(text[1..]) + rest)
  {
  }

  lemma {:induction false} LexEscaped(lx: Lexer, text: string, rest: string)
    requires lx.open == Some('"')
    ensures Lex(lx, Escape(text) + rest) == Lex(lx.(current := lx.current + text), rest)
    decreases |text|
  {
    if text == "" {
      assert Escape(text) + rest == rest && lx.current + text == lx.current;
    } else {
      var c, tail := text[0], Escape(text[1..]) + rest;
      var next := lx.(current := lx.current + [c]);
      EscapeShift(text, rest);
      if c == '"' || c == '\\' { LexEscape(lx, c, tail); } else { LexOne(lx, c, tail); }
      LexEscaped(next, text[1..], rest);
      Shift(lx.current, text);
    }
  }

  lemma {:induction false} LexPlain(lx: Lexer, text: string, rest: string)
    requires lx.open.None? && IsPlain(text)
    ensures Lex(lx, text + rest) == Lex(lx.(current := lx.current + text), rest)
    decreases |text|
  {
    if text == "" {
      assert text + rest == rest && lx.current + text == lx.current;
    } else {
      assert text + rest == [text[0]] + (text[1..] + rest);
      LexOne(lx, text[0], text[1..] + rest);
      LexPlain(lx.(current := lx.current + [text[0]]), text[1..], rest);
      Shift(lx.current, text);
    }
  }

  lemma {:induction false} LexQuoted(lx: Lexer, text: string, rest: string)
    requires lx.open.None? && lx.current == ""
    ensures Lex(lx, Spelled(Quoted(text)) + rest) == Lex(lx.(current := text, quoted := true), rest)
  {
    var inside := lx.(open := Some('"'), quoted := true);
    assert Spelled(Quoted(text)) + rest == ['"'] + (Escape(text) + (['"'] + rest));
    LexOne(lx, '"', Escape(text) + (['"'] + rest));
    LexEscaped(inside, text, ['"'] + rest);
    assert inside.current + text == text;
    LexOne(inside.(current := text), '"', rest);
  }

  /** Reading one spelled argument from between tokens. */
  lemma {:induction false} LexArgument(lx: Lexer, a: Argument, rest: string)
    requires lx.open.None? && lx.current == "" && Sayable(a)
    ensures Lex(lx, Spelled(a) + rest) == Lex(lx.(current := a.text, quoted := lx.quoted || a.Quoted?), rest)
  {
    if a.Bare? {
      LexPlain(lx, a.text, rest);
      assert lx.current + a.text == a.text;
    } else {
      LexQuoted(lx, a.text, rest);
    }
  }

  /** A space after an argument finishes its token. */
  lemma {:induction false} LexSpaced(lx: Lexer, a: Argument, rest: string)
    requires lx.open.None? && lx.current == "" && !lx.quoted && Sayable(a) && a.text != ""
    ensures Lex(lx, Spelled(a) + [' '] + rest) == Lex(Lexer(lx.tokens + [TokenOf(a)], "", false, None), rest)
  {
    var full := lx.(current := a.text, quoted := a.Quoted?);
    calc {
      Lex(lx, Spelled(a) + [' '] + rest);
      { assert Spelled(a) + [' '] + rest == Spelled(a) + ([' '] + rest); }
      Lex(lx, Spelled(a) + ([' '] + rest));
      { LexArgument(lx, a, [' '] + rest); }
      Lex(full, [' '] + rest);
      { LexOne(full, ' ', rest); }
      Lex(Feed(full, ' '), rest);
    }
  }

  lemma {:induction false} LexLast(lx: Lexer, a: Argument)
    requires lx.open.None? && lx.current == "" && !lx.quoted && Sayable(a) && a.text != ""
    ensures Lex(lx, Spelled(a)) == lx.(current := a.text, quoted := a.Quoted?)
  {
    assert Spelled(a) == Spelled(a) + "";
    LexArgument(lx, a, "");
  }

  lemma {:induction false} TokensOfCons(tokens: seq<Token>, args: seq<Argument>)
    requires args != []
    ensures tokens + TokensOf(args) == (tokens + [TokenOf(args[0])]) + TokensOf(args[1..])
  {
  }

  lemma {:induction false} LexLine(lx: Lexer, args: seq<Argument>)
    requires lx.open.None? && lx.current == "" && !lx.quoted && args != []
    requires forall a :: a in args ==> Sayable(a) && a.text != ""
    ensures Lex(lx, Line(args)).open.None?
    ensures Flush(Lex(lx, Line(args))).tokens == lx.tokens + TokensOf(args)
    decreases |args|
  {
    TokensOfCons(lx.tokens, args);
    if |args| == 1 {
      LexLast(lx, args[0]);
    } else {
      LexSpaced(lx, args[0], Line(args[1..]));
      LexLine(Lexer(lx.tokens + [TokenOf(args[0])], "", false, None), args[1..]);
    }
  }

  lemma {:induction false} NoEmptyTokens(lx: Lexer, input: string)
    requires forall t :: t in lx.tokens ==> t.text != ""
    ensures forall t :: t in Lex(lx, input).tokens ==> t.text != ""
    decreases |input|
  {
    if input == "" {
    } else if input[0] == '\\' && lx.open.Some? {
      if |input| > 1 { NoEmptyTokens(lx.(current := lx.current + [input[1]]), input[2..]); }
    } else {
      NoEmptyTokens(Feed(lx, input[0]), input[1..]);
    }
  }

  /**
   * A joined line gives back its arguments, with what was quoted and what was not, exactly when none of
   * them is empty.
   */
  lemma {:induction false} TokensOfLine(args: seq<Argument>)
    requires forall a :: a in args ==> Sayable(a)
    ensures Tokens(Line(args)) == Ok(TokensOf(args)) <==> forall a :: a in args ==> a.text != ""
  {
    if forall a :: a in args ==> a.text != "" {
      if args != [] { LexLine(START, args); }
      assert [] + TokensOf(args) == TokensOf(args);
    } else {
      var i :| 0 <= i < |args| && args[i].text == "";
      NoEmptyTokens(START, Line(args));
      assert TokensOf(args)[i].text == "" && TokensOf(args)[i] in TokensOf(args);
    }
  }

  /** An empty pair of quotes leaves no token but marks the next one as quoted, though no quote took part in it. */
  lemma {:induction false} EmptyQuotesLeak(word: string)
    requires IsPlain(word) && word != ""
    ensures Tokens(Line([Quoted(""), Bare(word)])) == Ok([Token(word, true)])
  {
    var args := [Quoted(""), Bare(word)];
    assert args[1..] == [Bare(word)];
    assert Line(args) == Spelled(args[0]) + ([' '] + word) && word + "" == word;
    LexArgument(START, args[0], [' '] + word);
    var after := Lexer([], "", true, None);
    LexOne(after, ' ', word);
    LexPlain(after, word, "");
    assert "" + word == word && after.tokens + [Token(word, true)] == [Token(word, true)];
    assert Lex(START, Line(args)) == Lexer([], word, true, None);
  }

  // ------------------------------------------------------------------
  // The parser undoes the printer
  // ------------------------------------------------------------------

  /** What a parse can produce: a target that is its own checked form, and a percentage. */
  ghost predicate WellFormed(c: Command) {
    match c
    case Plain(_) => true
    case On(_, target) => Usable(target)
    case SetVolume(target, percent) => Usable(target) && percent <= 100
  }

  /** A command word, in any case and of any row or none. */
  predicate IsHead(w: string) {
    Usable(w) && IsPlain(w) && w[0] != '/' && w[0] != ':'
  }

  lemma {:induction false} WordIsHead(w: string)
    requires IsWord(w)
    ensures IsHead(w) && NormalizedName(w) == Ok(w)
  {
    assert forall i :: 0 <= i < |w| ==> IsWordChar(w[i]) && LowerChar(w[i]) == w[i];
    assert Usable(w);
    assert Lower(w) == w;
    NormalizedOfUsable(w);
  }

  lemma {:induction false} PrintedPercent(percent: nat)
    requires percent <= 100
    ensures IsPlain(Print(percent)) && ParseVolumePercent(Print(percent)) == Ok(percent)
  {
    var p := Print(percent);
    assert forall i :: 0 <= i < |p| ==> IsDigit(p[i]);
    assert Trim(p) == p;
    ParseOfPrint(percent);
  }

  lemma {:induction false} TrimsToItself(line: string)
    requires line != "" && !IsWhitespace(line[0]) && !IsWhitespace(line[|line| - 1]) && line[0] != '/' && line[0] != ':'
    ensures StripPrefixes(Trim(line)) == line
  {
  }

  lemma {:induction false} LineEnds(args: seq<Argument>)
    requires args != [] && forall a :: a in args ==> a.text != "" && (a.Bare? ==> !IsWhitespace(a.text[|a.text| - 1]))
    ensures Line(args) != "" && !IsWhitespace(Line(args)[|Line(args)| - 1])
    ensures Line(args)[0] == Spelled(args[0])[0]
  {
    if |args| == 1 {
    } else {
      LineEnds(args[1..]);
    }
  }

  /** Printing a command and parsing the line gives the command back, exactly when a parse could have produced it. */
  lemma {:induction false} ParseOfPrintedCommand(c: Command)
    ensures Parse(PrintCommand(c)) == Ok(c) <==> WellFormed(c)
  {
    if WellFormed(c) { PrintedCommandParses(c); }
    if Parse(PrintCommand(c)) == Ok(c) { ParsedIsWellFormed(PrintCommand(c)); }
  }

  ghost predicate Printable(a: Argument) {
    a.text != "" && Sayable(a) && (a.Bare? ==> !IsWhitespace(a.text[|a.text| - 1]))
  }

  /** A line is its head word and arguments, nothing more. */
  lemma {:induction false} ParseOfLine(w: string, args: seq<Argument>)
    requires IsHead(w) && forall a :: a in args ==> Printable(a)
    ensures Parse(Line([Bare(w)] + args)) == ParseTokens([Token(w, false)] + TokensOf(args))
  {
    var all := [Bare(w)] + args;
    assert Printable(Bare(w));
    LineEnds(all);
    TrimsToItself(Line(all));
    TokensOfLine(all);
    assert TokensOf(all) == [Token(w, false)] + TokensOf(args);
  }

  lemma {:induction false} PrintableVolume(target: string, percent: nat)
    requires percent <= 100
    ensures Printable(Quoted(target)) <==> target != ""
    ensures Printable(Bare(Print(percent)))
  {
    PrintedPercent(percent);
    assert IsDigit(Print(percent)[|Print(percent)| - 1]);
  }

  lemma {:induction false} PrintedVolume(target: string, percent: nat)
    requires Usable(target) && percent <= 100
    ensures Build(VolumeRow, [Token(target, true), Token(Print(percent), false)]) == Ok(SetVolume(target, percent))
  {
    CheckedNameFixpoint(target);
    PrintedPercent(percent);
  }

  lemma {:induction false} PrintedArguments(c: Command)
    requires WellFormed(c)
    ensures forall a :: a in Arguments(c) ==> Printable(a)
    ensures Build(RowOf(c), TokensOf(Arguments(c))) == Ok(c)
  {
    match c
    case Plain(_) =>
    case On(_, t) => CheckedNameFixpoint(t);
    case SetVolume(t, percent) =>
      PrintableVolume(t, percent);
      PrintedVolume(t, percent);
      assert TokensOf(Arguments(c)) == [Token(t, true), Token(Print(percent), false)];
  }

  lemma {:induction false} PrintedCommandParses(c: Command)
    requires WellFormed(c)
    ensures Parse(PrintCommand(c)) == Ok(c)
  {
    var row := RowOf(c);
    CanonicalIsWord(row);
    CanonicalFindsRow(row);
    WordIsHead(Canonical(row));
    PrintedArguments(c);
    ParseOfLine(Canonical(row), Arguments(c));
    assert ([Token(Canonical(row), false)] + TokensOf(Arguments(c)))[1..] == TokensOf(Arguments(c));
  }

  /** Any spelling of a command, in any mix of cases, means the same whatever follows it. */
  lemma {:induction false} SpellingDoesNotMatter(v: string, w: string, args: seq<Argument>)
    requires IsHead(v) && IsHead(w) && forall a :: a in args ==> Printable(a)
    requires FindRow(Lower(v)).Some? && FindRow(Lower(v)) == FindRow(Lower(w))
    ensures Parse(Line([Bare(v)] + args)) == Parse(Line([Bare(w)] + args))
  {
    ParseOfLine(v, args);
    ParseOfLine(w, args);
    NormalizedOfUsable(v);
    NormalizedOfUsable(w);
    assert ([Token(v, false)] + TokensOf(args))[1..] == ([Token(w, false)] + TokensOf(args))[1..];
  }

  // ------------------------------------------------------------------
  // The palette prefix
  // ------------------------------------------------------------------

  /** The text opens with empty pairs of quotes and then a space, a tab or its end. */
  predicate EmptyHead(text: string) {
    |text| >= 2 && IsQuote(text[0]) && text[1] == text[0] &&
    (|text| == 2 || IsBlank(text[2]) || EmptyHead(text[2..]))
  }

  /** White space the tokenizer does not split at, and that a name can be trimmed of. */
  predicate Clings(w: string) {
    forall i :: 0 <= i < |w| ==> !IsBlank(w[i]) && !IsControl(w[i])
  }

  /**
   * White space before a text is nothing to a parse: spaces and tabs first, then only what clings to a
   * head that has something in it.
   */
  predicate Clears(w: string, text: string) {
    if w == "" then true
    else if IsBlank(w[0]) then Clears(w[1..], text)
    else Clings(w) && !EmptyHead(text)
  }

  /** What stands between a prefix and the text after it. */
  function Lead(input: string): string {
    if input != "" && IsWhitespace(input[0]) then [input[0]] + Lead(input[1..]) else ""
  }

  /** With a prefix in front, white space is no longer trimmed off, and a second prefix after it no longer stripped. */
  predicate PrefixAllowed(input: string) {
    Lead(input) == "" || (Trim(input) != "" && !IsPrefix(Trim(input)[0]) && Clears(Lead(input), Trim(input)))
  }

  function Glued(v: string, tokens: seq<Token>): seq<Token> {
    if tokens == [] then [] else [tokens[0].(text := v + tokens[0].text)] + tokens[1..]
  }

  /** Text put in front of the first token, finished or not. */
  function Glue(v: string, lx: Lexer): Lexer {
    if lx.tokens == [] then lx.(current := v + lx.current) else lx.(tokens := Glued(v, lx.tokens))
  }

  predicate Started(lx: Lexer) {
    lx.tokens != [] || lx.current != ""
  }

  lemma {:induction false} GlueAdds(v: string, lx: Lexer, c: char)
    requires Started(lx)
    ensures Glue(v, lx.(current := lx.current + [c])) == Glue(v, lx).(current := Glue(v, lx).current + [c])
  {
    if lx.tokens == [] { assert v + (lx.current + [c]) == v + lx.current + [c]; }
  }

  lemma {:induction false} GlueFlush(v: string, lx: Lexer)
    requires Started(lx)
    ensures Flush(Glue(v, lx)) == Glue(v, Flush(lx)) && Started(Flush(lx))
  {
    if lx.current != "" {
      var t := Token(lx.current, lx.quoted);
      assert (lx.tokens + [t])[1..] == if lx.tokens == [] then [] else lx.tokens[1..] + [t];
    }
  }

  lemma {:induction false} GlueFeed(v: string, lx: Lexer, c: char)
    requires Started(lx)
    ensures Feed(Glue(v, lx), c) == Glue(v, Feed(lx, c)) && Started(Feed(lx, c))
  {
    GlueAdds(v, lx, c);
    GlueFlush(v, lx);
  }

  /** Once the first token has something in it, what is glued in front of it stays there. */
  lemma {:induction false} GlueLex(v: string, lx: Lexer, input: string)
    requires Started(lx)
    ensures Lex(Glue(v, lx), input) == Glue(v, Lex(lx, input)) && Started(Lex(lx, input))
    decreases |input|
  {
    if input == "" {
    } else if input[0] == '\\' && lx.open.Some? {
      if |input| > 1 {
        GlueAdds(v, lx, input[1]);
        GlueLex(v, lx.(current := lx.current + [input[1]]), input[2..]);
      }
    } else {
      GlueFeed(v, lx, input[0]);
      GlueLex(v, Feed(lx, input[0]), input[1..]);
    }
  }

  predicate Fresh(lx: Lexer) {
    lx.tokens == [] && lx.current == "" && lx.open.None?
  }

  /** The same from the very start, if the head is not an empty pair of quotes. */
  lemma {:induction false} GlueHead(v: string, lx: Lexer, text: string)
    requires Fresh(lx) && text != "" && !IsBlank(text[0]) && !EmptyHead(text)
    ensures Lex(Glue(v, lx), text) == Glue(v, Lex(lx, text))
    ensures Started(Lex(lx, text)) || Lex(lx, text).open.Some?
    decreases |text|
  {
    var next := Feed(lx, text[0]);
    if !IsQuote(text[0]) {
      assert v + "" + [text[0]] == v + ("" + [text[0]]);
      assert Feed(Glue(v, lx), text[0]) == Glue(v, next);
      GlueLex(v, next, text[1..]);
    } else {
      assert Feed(Glue(v, lx), text[0]) == Glue(v, next);
      assert [text[0]] + text[1..] == text;
      if |text| > 1 { GlueQuoted(v, next, text[0], text[1..]); }
    }
  }

  lemma {:induction false} GlueQuoted(v: string, lx: Lexer, quote: char, text: string)
    requires lx.tokens == [] && lx.current == "" && lx.open == Some(quote) && IsQuote(quote)
    requires text != "" && !EmptyHead([quote] + text)
    ensures Lex(Glue(v, lx), text) == Glue(v, Lex(lx, text))
    ensures Started(Lex(lx, text)) || Lex(lx, text).open.Some?
    decreases |text|
  {
    if text[0] == quote {
      var after := lx.(open := None, quoted := true);
      assert ([quote] + text)[2..] == text[1..];
      assert Feed(lx, quote) == after && Feed(Glue(v, lx), quote) == Glue(v, after);
      GlueHead(v, after, text[1..]);
    } else if text[0] == '\\' {
      if |text| > 1 { GlueWithin(v, lx, text[1], text[2..]); }
    } else {
      assert Feed(lx, text[0]) == lx.(current := lx.current + [text[0]]);
      GlueWithin(v, lx, text[0], text[1..]);
    }
  }

  lemma {:induction false} GlueWithin(v: string, lx: Lexer, c: char, rest: string)
    requires lx.tokens == [] && lx.current == ""
    ensures var next := lx.(current := lx.current + [c]);
            && Lex(Glue(v, lx).(current := Glue(v, lx).current + [c]), rest) == Glue(v, Lex(next, rest))
            && Started(Lex(next, rest))
  {
    var next := lx.(current := lx.current + [c]);
    assert v + "" + [c] == v + ("" + [c]);
    GlueLex(v, next, rest);
  }

  /** What the first token holds when it is finished stays there. */
  lemma {:induction false} TokensStay(lx: Lexer, input: string)
    ensures lx.tokens <= Flush(Lex(lx, input)).tokens
    decreases |input|
  {
    if input == "" {
    } else if input[0] == '\\' && lx.open.Some? {
      if |input| > 1 { TokensStay(lx.(current := lx.current + [input[1]]), input[2..]); }
    } else {
      TokensStay(Feed(lx, input[0]), input[1..]);
    }
  }

  /** A first token that has begun is the beginning of the head. */
  lemma {:induction false} HeadKept(lx: Lexer, input: string)
    requires lx.tokens == [] && lx.current != ""
    ensures var tokens := Flush(Lex(lx, input)).tokens; tokens != [] && lx.current <= tokens[0].text
    decreases |input|
  {
    if input == "" {
    } else if input[0] == '\\' && lx.open.Some? {
      if |input| > 1 { HeadKept(lx.(current := lx.current + [input[1]]), input[2..]); }
    } else {
      var next := Feed(lx, input[0]);
      if next.tokens == [] { HeadKept(next, input[1..]); } else { TokensStay(next, input[1..]); }
    }
  }

  /** Nothing but white space, or a control character, makes no command name; nor does a leading prefix. */
  lemma {:induction false} NoSuchHead(tokens: seq<Token>)
    requires tokens != [] && tokens[0].text != ""
    requires AllWhitespace(tokens[0].text) || HasControl(tokens[0].text) || IsPrefix(tokens[0].text[0])
    ensures ParseTokens(tokens).Err?
  {
    var text := tokens[0].text;
    var from := TrimCuts(text);
    if NormalizedName(text).Ok? {
      assert !AllWhitespace(text);
      assert from == 0 && Trim(text)[0] == text[0];
      NotARow(Lower(Trim(text)));
    }
  }

  lemma {:induction false} NotARow(name: string)
    requires name != "" && IsPrefix(name[0])
    ensures FindRow(name).None?
  {
  }

  lemma {:induction false} ClingingName(v: string, text: string)
    requires AllWhitespace(v) && Clings(v)
    ensures NormalizedName(v + text) == NormalizedName(text)
    decreases |v|
  {
    if v == "" {
      assert v + text == text;
    } else {
      assert (v + text)[1..] == v[1..] + text;
      ClingingName(v[1..], text);
    }
  }

  /** Clinging white space in front of the head changes nothing but what an error may quote. */
  lemma {:induction false} GluedTokens(v: string, tokens: seq<Token>)
    requires AllWhitespace(v) && Clings(v)
    ensures ParseTokens(Glued(v, tokens)).Ok? <==> ParseTokens(tokens).Ok?
    ensures ParseTokens(tokens).Ok? ==> ParseTokens(Glued(v, tokens)) == ParseTokens(tokens)
  {
    if tokens != [] {
      ClingingName(v, tokens[0].text);
      assert Glued(v, tokens)[1..] == tokens[1..];
    }
  }
  /** An empty head leaves what stands in front of it alone in its token. */
  lemma {:induction false} EmptyHeadKeeps(lx: Lexer, text: string)
    requires lx.tokens == [] && lx.current != "" && lx.open.None? && EmptyHead(text)
    ensures var tokens := Flush(Lex(lx, text)).tokens; tokens != [] && tokens[0].text == lx.current
    decreases |text|
  {
    var after := lx.(quoted := true);
    assert text == [text[0]] + ([text[1]] + text[2..]);
    LexOne(lx, text[0], [text[1]] + text[2..]);
    LexOne(lx.(open := Some(text[0]), quoted := true), text[1], text[2..]);
    if |text| == 2 {
    } else if IsBlank(text[2]) {
      TokensStay(Flush(after), text[3..]);
    } else {
      EmptyHeadKeeps(after, text[2..]);
    }
  }

  /** A space or tab after other white space leaves a head of nothing but white space. */
  lemma {:induction false} SpoiledHead(lx: Lexer, w: string, text: string)
    requires lx.tokens == [] && lx.current != "" && AllWhitespace(lx.current) && lx.open.None?
    requires AllWhitespace(w) && exists i :: 0 <= i < |w| && IsBlank(w[i])
    ensures var tokens := Flush(Lex(lx, w + text)).tokens;
            tokens != [] && tokens[0].text != "" && AllWhitespace(tokens[0].text)
    decreases |w|
  {
    assert w + text == [w[0]] + (w[1..] + text);
    LexOne(lx, w[0], w[1..] + text);
    if IsBlank(w[0]) {
      TokensStay(Flush(lx), w[1..] + text);
    } else {
      var i :| 0 <= i < |w| && IsBlank(w[i]);
      assert IsBlank(w[1..][i - 1]);
      SpoiledHead(lx.(current := lx.current + [w[0]]), w[1..], text);
    }
  }

  /** What white space that the tokenizer does not split at does to the text after it. */
  lemma {:induction false} Unsplit(w: string, text: string)
    requires w != "" && AllWhitespace(w) && IsPlain(w) && text != "" && !IsWhitespace(text[0])
    ensures ParseLine(w + text).Ok? <==> ParseLine(text).Ok? && Clings(w) && !EmptyHead(text)
    ensures ParseLine(w + text).Ok? ==> ParseLine(w + text) == ParseLine(text)
  {
    LexPlain(START, w, text);
    assert "" + w == w && Glue(w, START) == START.(current := w);
    if Clings(w) && !EmptyHead(text) { ClingingLine(w, text); } else { UnsplitSpoils(w, text); }
  }

  lemma {:induction false} UnsplitSpoils(w: string, text: string)
    requires w != "" && AllWhitespace(w) && IsPlain(w) && (!Clings(w) || EmptyHead(text))
    requires Lex(START, w + text) == Lex(START.(current := w), text)
    ensures ParseLine(w + text).Err?
  {
    var held := START.(current := w);
    var tokens := Flush(Lex(held, text)).tokens;
    HeadKept(held, text);
    if !Clings(w) {
      ControlsSpoil(w, tokens);
    } else {
      EmptyHeadKeeps(held, text);
      NoSuchHead(tokens);
    }
  }

  /** Clinging white space in front of a head with something in it. */
  lemma {:induction false} ClingingLine(w: string, text: string)
    requires AllWhitespace(w) && Clings(w) && Lex(START, w + text) == Lex(Glue(w, START), text)
    requires text != "" && !IsWhitespace(text[0]) && !EmptyHead(text)
    ensures ParseLine(w + text).Ok? <==> ParseLine(text).Ok?
    ensures ParseLine(text).Ok? ==> ParseLine(w + text) == ParseLine(text)
  {
    var lx := Lex(START, text);
    GlueHead(w, START, text);
    if lx.open.None? {
      GlueFlush(w, lx);
      GluedTokens(w, Flush(lx).tokens);
    }
  }

  lemma {:induction false} ControlsSpoil(w: string, tokens: seq<Token>)
    requires IsPlain(w) && !Clings(w) && tokens != [] && w <= tokens[0].text
    ensures ParseTokens(tokens).Err?
  {
    var i :| 0 <= i < |w| && IsControl(w[i]);
    assert tokens[0].text[i] == w[i];
    HasControlMeaning(tokens[0].text);
    NoSuchHead(tokens);
  }

  /** What white space does to the text after it. */
  lemma {:induction false} LeadCleared(w: string, text: string)
    requires AllWhitespace(w) && text != "" && !IsWhitespace(text[0])
    ensures ParseLine(w + text).Ok? <==> ParseLine(text).Ok? && Clears(w, text)
    ensures ParseLine(w + text).Ok? ==> ParseLine(w + text) == ParseLine(text)
    decreases |w|
  {
    if w == "" {
      assert w + text == text;
    } else if IsBlank(w[0]) {
      assert w + text == [w[0]] + (w[1..] + text);
      LexOne(START, w[0], w[1..] + text);
      LeadCleared(w[1..], text);
    } else if exists i :: 0 <= i < |w| && IsBlank(w[i]) {
      var i :| 0 <= i < |w| && IsBlank(w[i]);
      assert w + text == [w[0]] + (w[1..] + text) && IsBlank(w[1..][i - 1]) && "" + [w[0]] == [w[0]];
      LexOne(START, w[0], w[1..] + text);
      SpoiledHead(START.(current := [w[0]]), w[1..], text);
      NoSuchHead(Flush(Lex(START, w + text)).tokens);
    } else {
      Unsplit(w, text);
    }
  }

  lemma {:induction false} PrefixedHead(text: string)
    requires text != "" && IsPrefix(text[0])
    ensures ParseLine(text).Err?
  {
    var begun := START.(current := [text[0]]);
    assert text == [text[0]] + text[1..] && "" + [text[0]] == [text[0]];
    LexOne(START, text[0], text[1..]);
    HeadKept(begun, text[1..]);
    NoSuchHead(Flush(Lex(START, text)).tokens);
  }

  lemma {:induction false} LeadIsWhitespace(input: string)
    ensures AllWhitespace(Lead(input)) && input == Lead(input) + TrimStart(input)
    ensures TrimStart(input) != "" ==> !IsWhitespace(TrimStart(input)[0])
  {
    if input == "" || !IsWhitespace(input[0]) {
      assert Lead(input) + TrimStart(input) == input;
    } else {
      LeadIsWhitespace(input[1..]);
      assert input == [input[0]] + input[1..];
    }
  }

  lemma {:induction false} TrimEndAfter(w: string, text: string)
    requires text != "" && !IsWhitespace(text[0])
    ensures TrimEnd(w + text) == w + TrimEnd(text) && TrimEnd(text) != "" && TrimEnd(text)[0] == text[0]
    decreases |text|
  {
    var s := w + text;
    assert s[|s| - 1] == text[|text| - 1];
    if !IsWhitespace(text[|text| - 1]) {
    } else {
      assert s[..|s| - 1] == w + text[..|text| - 1];
      TrimEndAfter(w, text[..|text| - 1]);
    }
  }

  lemma {:induction false} TrimEndWhitespace(w: string)
    requires AllWhitespace(w)
    ensures TrimEnd(w) == ""
  {
    TrimEndCuts(w);
  }

  lemma {:induction false} StripOne(prefix: char, line: string)
    requires IsPrefix(prefix)
    ensures StripPrefixes([prefix] + line) == StripPrefixes(line)
  {
    assert ([prefix] + line)[1..] == line;
  }

  lemma {:induction false} PrefixTrimmed(prefix: char, input: string)
    requires IsPrefix(prefix)
    ensures Trim([prefix] + input) == [prefix] + TrimEnd(input)
  {
    TrimEndCons(prefix, input);
    assert TrimStart([prefix] + input) == [prefix] + input;
  }

  lemma {:induction false} TrimEndOfLead(input: string)
    ensures if TrimStart(input) == "" then TrimEnd(input) == "" && Trim(input) == ""
            else TrimEnd(input) == Lead(input) + Trim(input) && Trim(input) != "" && !IsWhitespace(Trim(input)[0])
  {
    LeadIsWhitespace(input);
    if TrimStart(input) == "" {
      assert input == Lead(input);
      TrimEndWhitespace(input);
    } else {
      TrimEndAfter(Lead(input), TrimStart(input));
    }
  }

  /** What is parsed when a prefix is put in front. */
  lemma {:induction false} PrefixedLine(prefix: char, input: string)
    requires IsPrefix(prefix)
    ensures Parse([prefix] + input) == ParseLine(StripPrefixes(TrimEnd(input)))
  {
    PrefixTrimmed(prefix, input);
    StripOne(prefix, TrimEnd(input));
  }

  /**
   * A palette prefix in front of a text: what it then parses to is what it parsed to before, and it still
   * parses exactly when no white space follows the prefix or that white space is nothing to a parse and the
   * text has no prefix of its own. Without white space even the errors are the same.
   */
  lemma {:induction false} PrefixDoesNotMatter(prefix: char, input: string)
    requires IsPrefix(prefix)
    ensures Parse([prefix] + input).Ok? <==> Parse(input).Ok? && PrefixAllowed(input)
    ensures Parse([prefix] + input).Ok? || Lead(input) == "" ==> Parse([prefix] + input) == Parse(input)
  {
    var w, text := Lead(input), Trim(input);
    PrefixedLine(prefix, input);
    TrimEndOfLead(input);
    LeadIsWhitespace(input);
    if text != "" {
      if w == "" {
        assert w + text == text;
      } else {
        assert StripPrefixes(w + text) == w + text by { assert IsWhitespace((w + text)[0]); }
        LeadCleared(w, text);
        if IsPrefix(text[0]) { PrefixedHead(text); }
      }
    }
  }

  lemma {:induction false} TrimEndCons(prefix: char, input: string)
    requires !IsWhitespace(prefix)
    ensures TrimEnd([prefix] + input) == [prefix] + TrimEnd(input)
  {
    var s := [prefix] + input;
    if input == "" {
      assert s[..0] == "" && TrimEnd(s) == s;
    } else if IsWhitespace(input[|input| - 1]) {
      assert s[..|s| - 1] == [prefix] + input[..|input| - 1];
      TrimEndCons(prefix, input[..|input| - 1]);
    } else {
      assert s[|s| - 1] == input[|input| - 1];
    }
  }

  /** Every command a parse accepts is well formed. */
  lemma {:induction false} ParsedIsWellFormed(input: string)
    requires Parse(input).Ok?
    ensures WellFormed(Parse(input).value)
  {
    var tokens := Tokens(StripPrefixes(Trim(input))).value;
    var row := FindRow(NormalizedName(tokens[0].text).value).value;
    if row != PlainRow(Help) && |tokens| > 1 && CheckedName(tokens[1].text).Ok? { CheckedIsUsable(tokens[1].text); }
  }

  /** The head word, in any case, is a spelling of this row. */
  ghost predicate Heads(tokens: seq<Token>, row: Row) {
    && tokens != [] && NormalizedName(tokens[0].text).Ok?
    && var name := NormalizedName(tokens[0].text).value; name == Canonical(row) || name in OtherSpellings(row)
  }

  /** A bare number from 0 to 100 with nothing around it. */
  ghost predicate IsPercent(token: Token, percent: nat) {
    !token.quoted && Trim(token.text) == token.text && ParseU64(token.text) == Some(percent) && percent <= 100
  }

  /** Exactly which token lists are which command: the head, the number of arguments and what each must be. */
  lemma {:induction false} ParsedExactly(tokens: seq<Token>, c: Command)
    ensures ParseTokens(tokens) == Ok(c) <==>
            && Heads(tokens, RowOf(c))
            && match c
               case Plain(_) => |tokens| == 1
               case On(_, target) => |tokens| == 2 && CheckedName(tokens[1].text) == Ok(target)
               case SetVolume(target, percent) =>
                 |tokens| == 3 && CheckedName(tokens[1].text) == Ok(target) && IsPercent(tokens[2], percent)
  {
    if tokens != [] && NormalizedName(tokens[0].text).Ok? {
      SpellingsFindRow(NormalizedName(tokens[0].text).value, RowOf(c));
    }
  }

  lemma {:induction false} HeadsMeaning(tokens: seq<Token>, row: Row)
    requires tokens != [] && NormalizedName(tokens[0].text).Ok?
    ensures Heads(tokens, row) <==> FindRow(NormalizedName(tokens[0].text).value) == Some(row)
  {
    SpellingsFindRow(NormalizedName(tokens[0].text).value, row);
  }

  /** A head that is no row's spelling is all that makes a command unknown. */
  lemma {:induction false} UnknownExactly(tokens: seq<Token>)
    requires tokens != [] && NormalizedName(tokens[0].text).Ok?
    ensures ParseTokens(tokens) == Err(UnknownCommand(tokens[0].text)) <==> forall row :: !Heads(tokens, row)
  {
    forall row ensures Heads(tokens, row) <==> FindRow(NormalizedName(tokens[0].text).value) == Some(row) {
      HeadsMeaning(tokens, row);
    }
    var found := FindRow(NormalizedName(tokens[0].text).value);
    assert found.Some? ==> Heads(tokens, found.value);
  }

  /** What is said of a known command with the wrong arguments. */
  lemma {:induction false} RefusedBecause(tokens: seq<Token>, row: Row)
    requires Heads(tokens, row)
    ensures ParseTokens(tokens) == Err(WrongArity(row, |tokens| - 1)) <==> |tokens| - 1 != Arity(row)
    ensures row == VolumeRow && |tokens| == 3 ==> (ParseTokens(tokens) == Err(QuotedPercent) <==> tokens[2].quoted)
    ensures row == VolumeRow && |tokens| == 3 ==>
              forall n :: !tokens[2].quoted && Trim(tokens[2].text) == tokens[2].text
                          && ParseU64(tokens[2].text) == Some(n) && n > 100 ==>
                ParseTokens(tokens) == Err(PercentTooLarge(n))
  {
    HeadsMeaning(tokens, row);
  }

  /** So printing what was parsed is a normal form: it parses to the same command. */
  lemma {:induction false} PrintedFormIsStable(input: string)
    requires Parse(input).Ok?
    ensures Parse(PrintCommand(Parse(input).value)) == Parse(input)
  {
    ParsedIsWellFormed(input);
    PrintedCommandParses(Parse(input).value);
  }

  // ------------------------------------------------------------------
  // Quotes and blanks
  // ------------------------------------------------------------------

  lemma {:induction false} LexInside(lx: Lexer, quote: char, text: string, rest: string)
    requires lx.open == Some(quote) && forall i :: 0 <= i < |text| ==> text[i] != quote && text[i] != '\\'
    ensures Lex(lx, text + rest) == Lex(lx.(current := lx.current + text), rest)
    decreases |text|
  {
    if text == "" {
      assert text + rest == rest && lx.current + text == lx.current;
    } else {
      assert text + rest == [text[0]] + (text[1..] + rest);
      LexOne(lx, text[0], text[1..] + rest);
      LexInside(lx.(current := lx.current + [text[0]]), quote, text[1..], rest);
      Shift(lx.current, text);
    }
  }

  /** Single and double quotes both make one token of what they enclose, blanks and the other quote included. */
  lemma {:induction false} EitherQuote(quote: char, text: string)
    requires (quote == '"' || quote == '\'') && text != ""
    requires forall i :: 0 <= i < |text| ==> text[i] != quote && text[i] != '\\'
    ensures Tokens([quote] + text + [quote]) == Ok([Token(text, true)])
  {
    var inside := START.(open := Some(quote), quoted := true);
    assert [quote] + text + [quote] == [quote] + (text + [quote]) && [quote] + "" == [quote];
    LexOne(START, quote, text + [quote]);
    LexInside(inside, quote, text, [quote]);
    assert inside.current + text == text;
    LexOne(inside.(current := text), quote, "");
    assert Lex(START, [quote] + text + [quote]) == Lexer([], text, true, None);
    assert [] + [Token(text, true)] == [Token(text, true)];
  }

  lemma {:induction false} PlainWords(left: string, right: string)
    requires forall c :: c in left + right ==> c != '"' && c != '\'' && c != ' ' && c != '\t'
    ensures IsPlain(left) && IsPlain(right) && IsPlain(left + right)
  {
    forall i | 0 <= i < |left| ensures !IsQuote(left[i]) && !IsBlank(left[i]) { assert left[i] in left + right; }
    forall i | 0 <= i < |right| ensures !IsQuote(right[i]) && !IsBlank(right[i]) { assert right[i] in left + right; }
    forall i | 0 <= i < |left + right| ensures !IsQuote((left + right)[i]) && !IsBlank((left + right)[i]) {
      assert (left + right)[i] in left + right;
    }
  }

  lemma {:induction false} LexWord(lx: Lexer, word: string)
    requires lx.open.None? && lx.current == "" && IsPlain(word)
    ensures Lex(lx, word) == lx.(current := word)
  {
    assert word + "" == word && "" + word == word;
    LexPlain(lx, word, "");
  }

  /** Outside quotes, spaces and tabs alike end a token, and only they do. */
  lemma {:induction false} BlanksSeparate(left: string, blank: char, right: string)
    requires left != "" && right != "" && (blank == ' ' || blank == '\t')
    requires forall c :: c in left + right ==> c != '"' && c != '\'' && c != ' ' && c != '\t'
    ensures Tokens(left + [blank] + right) == Ok([Token(left, false), Token(right, false)])
    ensures Tokens(left + right) == Ok([Token(left + right, false)])
  {
    PlainWords(left, right);
    TwoPlainWords(left, blank, right);
    OnePlainWord(left + right);
  }

  lemma {:induction false} TwoPlainWords(left: string, blank: char, right: string)
    requires left != "" && right != "" && IsBlank(blank) && IsPlain(left) && IsPlain(right)
    ensures Tokens(left + [blank] + right) == Ok([Token(left, false), Token(right, false)])
  {
    var first, after := START.(current := left), Lexer([Token(left, false)], "", false, None);
    assert left + [blank] + right == left + ([blank] + right) && "" + left == left;
    LexPlain(START, left, [blank] + right);
    LexOne(first, blank, right);
    assert [] + [Token(left, false)] == [Token(left, false)];
    assert Feed(first, blank) == after;
    LexWord(after, right);
    assert [Token(left, false)] + [Token(right, false)] == [Token(left, false), Token(right, false)];
  }

  lemma {:induction false} OnePlainWord(word: string)
    requires word != "" && IsPlain(word)
    ensures Tokens(word) == Ok([Token(word, false)])
  {
    LexWord(START, word);
    assert [] + [Token(word, false)] == [Token(word, false)];
  }

  lemma {:induction false} TrimTwice(s: string)
    ensures Trim(Trim(s)) == Trim(s)
  {
    var from := TrimCuts(s);
  }

  /** White space around a line never matters. */
  lemma {:induction false} OuterWhitespace(input: string)
    ensures Parse(Trim(input)) == Parse(input)
  {
    TrimTwice(input);
  }
}
