/**
 * How `ClientHandler.handleClientCommand` reads a line: it splits off the
 * first whitespace-delimited token, lower-cases it and selects one of six
 * commands by it; every other line is chat.
 */
module Commands {
  import opened Wrappers
  import opened Text

  /** The first tokens that select a command; any other token makes the line chat. */
  const Keywords: set<string> := {"/nick", "/join", "/leave", "/quit", "/help", "/list"}

  /**
   * `command.trim().split("\\s+", 2)`: the first token lower-cased, and the
   * remainder trimmed, or "" when the line has no remainder.
   */
  function Tokenize(line: string): (r: (string, string))
    ensures IsLowerCase(r.0) && NoWhitespace(r.0)
    ensures IsTrimmed(r.1)
  {
    var (head, rest) := SplitOnce(Trim(line));
    (Lower(head), if rest.Some? then Trim(rest.value) else "")
  }

  /** A token that `trim` and `split` keep whole: non-empty, with no character at or below U+0020. */
  predicate IsWord(w: string) {
    w != [] && forall i :: 0 <= i < |w| ==> !IsTrimmable(w[i])
  }

  predicate AllWhitespace(s: string) {
    forall i :: 0 <= i < |s| ==> IsWhitespace(s[i])
  }

  /** Padding around a line does not change its tokens. */
  lemma TokenizeIgnoresPadding(p: string, line: string, q: string)
    requires AllTrimmable(p) && AllTrimmable(q)
    ensures Tokenize(p + line + q) == Tokenize(line)
  {
    TrimIgnoresPadding(p, line, q);
  }

  /** A line that is one word is a command token without argument. */
  lemma TokenizeWord(w: string)
    requires IsWord(w)
    ensures Tokenize(w) == (Lower(w), "")
  {
    TrimTrimmed(w);
    var i := FirstWhitespace(w, 0);
    if i < |w| {
      WhitespaceIsTrimmable(w[i]);
    }
  }

  /** `split` cuts a word, a run of whitespace and a non-blank rest at the run. */
  lemma SplitWords(w: string, gap: string, a: string)
    requires IsWord(w) && gap != [] && AllWhitespace(gap) && a != [] && !IsTrimmable(a[0])
    ensures SplitOnce(w + gap + a) == (w, Some(a))
  {
    var t := w + gap + a;
    var i := FirstWhitespace(t, 0);
    assert t[|w|] == gap[0];
    if i < |w| {
      assert t[i] == w[i];
      WhitespaceIsTrimmable(t[i]);
    }
    assert i == |w|;
    var j := EndOfWhitespace(t, i);
    assert t[|w| + |gap|] == a[0];
    WhitespaceIsTrimmable(a[0]);
    assert j == |w| + |gap|;
    assert t[..i] == w;
    assert t[j..] == a;
  }

  /** A word, a run of whitespace and a trimmed argument tokenize to the word and the argument. */
  lemma TokenizeWords(w: string, gap: string, a: string)
    requires IsWord(w) && gap != [] && AllWhitespace(gap) && a != [] && IsTrimmed(a)
    ensures Tokenize(w + gap + a) == (Lower(w), a)
  {
    var t := w + gap + a;
    assert t[0] == w[0] && t[|t| - 1] == a[|a| - 1];
    TrimTrimmed(t);
    SplitWords(w, gap, a);
    TrimTrimmed(a);
  }

  /** The worked example of the command grammar. */
  lemma TokenizeExample()
    ensures Tokenize("  /NICK   bob  ") == ("/nick", "bob")
  {
    ExampleParts();
    TokenizeIgnoresPadding("  ", "/NICK" + "   " + "bob", "  ");
    TokenizeWords("/NICK", "   ", "bob");
  }

  /** The pieces of the worked example, and that each meets the lemmas' requirements. */
  lemma ExampleParts()
    ensures "  /NICK   bob  " == "  " + ("/NICK" + "   " + "bob") + "  "
    ensures AllTrimmable("  ") && IsWord("/NICK") && AllWhitespace("   ") && IsTrimmed("bob")
    ensures Lower("/NICK") == "/nick"
  {
  }

  /** What handleClientCommand does with a line, chosen by its first token. */
  datatype Command =
    | Nick(name: string)      // an empty name gets the usage line
    | Join(channel: string)   // an empty channel gets the usage line
    | Leave                   // any argument is ignored
    | Quit
    | Help
    | List
    | Chat                    // the whole line, untrimmed, goes to the current channel

  function Classify(line: string): (c: Command)
    ensures c == Chat <==> Tokenize(line).0 !in Keywords
    ensures c.Nick? ==> c.name == Tokenize(line).1
    ensures c.Join? ==> c.channel == Tokenize(line).1
  {
    var (cmd, argument) := Tokenize(line);
    if cmd == "/nick" then Nick(argument)
    else if cmd == "/join" then Join(argument)
    else if cmd == "/leave" then Leave
    else if cmd == "/quit" then Quit
    else if cmd == "/help" then Help
    else if cmd == "/list" then List
    else Chat
  }

  /** A command token, followed by a space and the argument when there is one. */
  function CommandLine(keyword: string, argument: string): string {
    if argument == "" then keyword else keyword + " " + argument
  }

  /** The line a user types to issue a command. */
  function Render(c: Command): string {
    match c
    case Nick(name) => CommandLine("/nick", name)
    case Join(channel) => CommandLine("/join", channel)
    case Leave => "/leave"
    case Quit => "/quit"
    case Help => "/help"
    case List => "/list"
    case Chat => ""
  }

  /** Commands whose argument is what the tokenizer can produce. */
  predicate WellFormed(c: Command) {
    match c
    case Nick(name) => IsTrimmed(name)
    case Join(channel) => IsTrimmed(channel)
    case _ => true
  }

  /** Each keyword is a lower-case word. */
  lemma KeywordIsWord(w: string)
    requires w in Keywords
    ensures IsWord(w) && Lower(w) == w
  {
    LowerOfLowerCase(w);
  }

  /** A keyword alone, or followed by a space and a trimmed argument, tokenizes back to both. */
  lemma TokenizeKeyword(w: string, argument: string)
    requires w in Keywords && IsTrimmed(argument)
    ensures Tokenize(CommandLine(w, argument)) == (w, argument)
  {
    KeywordIsWord(w);
    if argument == "" {
      TokenizeWord(w);
    } else {
      TokenizeWords(w, " ", argument);
    }
  }

  /** Reading back the line for a command yields that command. */
  lemma ClassifyRender(c: Command)
    requires WellFormed(c)
    ensures Classify(Render(c)) == c
  {
    match c
    case Nick(name) => TokenizeKeyword("/nick", name);
    case Join(channel) => TokenizeKeyword("/join", channel);
    case Leave => TokenizeKeyword("/leave", "");
    case Quit => TokenizeKeyword("/quit", "");
    case Help => TokenizeKeyword("/help", "");
    case List => TokenizeKeyword("/list", "");
    case Chat => assert Tokenize("") == ("", "");
  }

  /** `/leave` ignores whatever follows it, and its token is read case-insensitively. */
  lemma LeaveIgnoresArgument(w: string, gap: string, a: string)
    requires IsWord(w) && Lower(w) == "/leave"
    requires gap != [] && AllWhitespace(gap) && a != [] && IsTrimmed(a)
    ensures Classify(w + gap + a) == Leave
  {
    TokenizeWords(w, gap, a);
  }

  /** A slash token outside the six commands, such as `/stats`, is chat. */
  lemma UnknownSlashCommandIsChat(w: string)
    requires IsWord(w) && Lower(w) !in Keywords
    ensures Classify(w) == Chat
  {
    TokenizeWord(w);
  }
}
