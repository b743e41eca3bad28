/**
 * Alias expansion in the command line shell: arguments are quoted into the expanded line and must come back
 * unchanged when that line is lexed (cli/src/runtime.rs). The lexer follows the quoting rules of section 2.2
 * of the POSIX Shell Command Language, as the shlex library implements them; that library is not part of the
 * repository.
 */
module ShellQuote {
  import opened Options

  // ----- The lexer -----

  datatype Mode =
    | Between
    | Comment
    | Word(acc: string)
    | Single(acc: string)
    | Double(acc: string)
    | Escape(acc: string)
    | DoubleEscape(acc: string)

  datatype Lexer = Lexer(words: seq<string>, mode: Mode)

  predicate IsBlank(c: char) { c == ' ' || c == '\t' || c == '\n' }

  function StepWord(words: seq<string>, acc: string, c: char): Lexer
  {
    if c == '"' then Lexer(words, Double(acc))
    else if c == '\'' then Lexer(words, Single(acc))
    else if c == '\\' then Lexer(words, Escape(acc))
    else if IsBlank(c) then Lexer(words + [acc], Between)
    else Lexer(words, Word(acc + [c]))
  }

  function Step(l: Lexer, c: char): Lexer
  {
    match l.mode
    case Between =>
      if IsBlank(c) then l else if c == '#' then l.(mode := Comment) else StepWord(l.words, "", c)
    case Comment => if c == '\n' then l.(mode := Between) else l
    case Word(acc) => StepWord(l.words, acc, c)
    case Single(acc) => l.(mode := if c == '\'' then Word(acc) else Single(acc + [c]))
    case Double(acc) =>
      l.(mode := if c == '\\' then DoubleEscape(acc) else if c == '"' then Word(acc) else Double(acc + [c]))
    case Escape(acc) => l.(mode := Word(if c == '\n' then acc else acc + [c]))
    case DoubleEscape(acc) =>
      l.(mode := Double(if c == '\n' then acc
                        else if c == '$' || c == '`' || c == '"' || c == '\\' then acc + [c]
                        else acc + ['\\', c]))
  }

  function Run(l: Lexer, s: string): Lexer
    decreases |s|
  {
    if s == "" then l else Run(Step(l, s[0]), s[1..])
  }

  function Finish(l: Lexer): Option<seq<string>>
  {
    match l.mode
    case Between => Some(l.words)
    case Comment => Some(l.words)
    case Word(acc) => Some(l.words + [acc])
    case _ => None
  }

  const START: Lexer := Lexer([], Between)

  /** `shlex::split` */
  function Split(s: string): Option<seq<string>> { Finish(Run(START, s)) }

  // ----- The quoter and the expansion -----

  predicate IsSafe(c: char)
  {
    'a' <= c <= 'z' || 'A' <= c <= 'Z' || '0' <= c <= '9' || c in "-_./:"
  }

  predicate AllSafe(s: string) { forall i :: 0 <= i < |s| ==> IsSafe(s[i]) }

  function EscapeQuotes(s: string): string
  {
    if s == "" then "" else (if s[0] == '\'' then "'\"'\"'" else [s[0]]) + EscapeQuotes(s[1..])
  }

  function Quote(s: string): (r: string)
    ensures r != ""
  {
    if s == "" then "''" else if AllSafe(s) then s else "'" + EscapeQuotes(s) + "'"
  }

  /** The quoted words, separated by single spaces. */
  function QuoteAll(words: seq<string>): string
  {
    if words == [] then ""
    else if |words| == 1 then Quote(words[0])
    else Quote(words[0]) + " " + QuoteAll(words[1..])
  }

  function ExpandAlias(line: string, aliases: map<string, string>): string
  {
    var parts := Split(line);
    if parts.None? || parts.value == [] || parts.value[0] !in aliases then line
    else
      var alias, suffix := aliases[parts.value[0]], QuoteAll(parts.value[1..]);
      if suffix == "" then alias else alias + " " + suffix
  }

  /** The argument list a shell line is parsed into, or nothing for invalid quoting. */
  function ParseArguments(line: string, aliases: map<string, string>): Option<seq<string>>
  {
    Split(ExpandAlias(line, aliases))
  }

  // ----- Lexing quoted text -----

  lemma {:induction false} RunConcat(l: Lexer, a: string, b: string)
    ensures Run(l, a + b) == Run(Run(l, a), b)
    decreases |a|
  {
    if a == "" {
      assert a + b == b;
    } else {
      assert (a + b)[1..] == a[1..] + b;
      RunConcat(Step(l, a[0]), a[1..], b);
    }
  }

  lemma RunChar(l: Lexer, c: char)
    ensures Run(l, [c]) == Step(l, c)
  {
    assert [c][1..] == "";
  }

  lemma {:induction false} SafeRun(words: seq<string>, acc: string, s: string)
    requires AllSafe(s)
    ensures Run(Lexer(words, Word(acc)), s) == Lexer(words, Word(acc + s))
    decreases |s|
  {
    if s == "" {
      assert acc + s == acc;
    } else {
      SafeRun(words, acc + [s[0]], s[1..]);
      assert acc + [s[0]] + s[1..] == acc + s;
    }
  }

  /** A single quote inside quotes leaves them, adds itself between double quotes, and enters them again. */
  lemma QuotedQuoteRun(words: seq<string>, acc: string)
    ensures Run(Lexer(words, Single(acc)), "'\"'\"'") == Lexer(words, Single(acc + "'"))
  {
    var l0 := Lexer(words, Single(acc));
    RunChar(l0, '\'');
    var l1 := Step(l0, '\'');
    RunConcat(l0, "'", "\"'\"'");
    RunConcat(l1, "\"", "'\"'");
    RunChar(l1, '"');
    var l2 := Step(l1, '"');
    RunConcat(l2, "'", "\"'");
    RunChar(l2, '\'');
    var l3 := Step(l2, '\'');
    RunConcat(l3, "\"", "'");
    RunChar(l3, '"');
    RunChar(Step(l3, '"'), '\'');
  }

  lemma {:induction false} EscapedRun(words: seq<string>, acc: string, s: string)
    ensures Run(Lexer(words, Single(acc)), EscapeQuotes(s)) == Lexer(words, Single(acc + s))
    decreases |s|
  {
    if s == "" {
      assert acc + s == acc;
    } else {
      var head := if s[0] == '\'' then "'\"'\"'" else [s[0]];
      RunConcat(Lexer(words, Single(acc)), head, EscapeQuotes(s[1..]));
      if s[0] == '\'' {
        QuotedQuoteRun(words, acc);
      } else {
        RunChar(Lexer(words, Single(acc)), s[0]);
      }
      EscapedRun(words, acc + [s[0]], s[1..]);
      assert acc + [s[0]] + s[1..] == acc + s;
    }
  }

  lemma SafeQuoteRun(words: seq<string>, s: string)
    requires s != "" && AllSafe(s)
    ensures Run(Lexer(words, Between), s) == Lexer(words, Word(s))
  {
    assert IsSafe(s[0]) && "" + [s[0]] == [s[0]];
    assert Step(Lexer(words, Between), s[0]) == Lexer(words, Word([s[0]]));
    SafeRun(words, [s[0]], s[1..]);
    assert [s[0]] + s[1..] == s;
  }

  /** Between single quotes a text is read as it stands, at a word boundary and in a word alike. */
  lemma {:induction false} EnquotedRun(l: Lexer, acc: string, s: string)
    requires Step(l, '\'') == Lexer(l.words, Single(acc))
    ensures Run(l, "'" + EscapeQuotes(s) + "'") == Lexer(l.words, Word(acc + s))
  {
    hide Run;
    RunConcat(l, "'" + EscapeQuotes(s), "'");
    RunConcat(l, "'", EscapeQuotes(s));
    RunChar(l, '\'');
    EscapedRun(l.words, acc, s);
    RunChar(Lexer(l.words, Single(acc + s)), '\'');
  }

  lemma EmptyQuoted()
    ensures Quote("") == "'" + EscapeQuotes("") + "'"
  {
  }

  /** Lexing a quoted word from a word boundary is reading exactly that word. */
  lemma QuoteRun(words: seq<string>, s: string)
    ensures Run(Lexer(words, Between), Quote(s)) == Lexer(words, Word(s))
  {
    hide Run;
    hide EscapeQuotes;
    if s != "" && AllSafe(s) {
      SafeQuoteRun(words, s);
    } else {
      EmptyQuoted();
      EnquotedRun(Lexer(words, Between), "", s);
      assert "" + s == s;
    }
  }

  lemma BlankEndsWord(words: seq<string>, acc: string)
    ensures Run(Lexer(words, Word(acc)), " ") == Lexer(words + [acc], Between)
  {
    RunChar(Lexer(words, Word(acc)), ' ');
  }

  lemma {:induction false} QuoteAllRun(before: seq<string>, words: seq<string>)
    requires words != []
    ensures
      Run(Lexer(before, Between), QuoteAll(words)) == Lexer(before + words[..|words| - 1], Word(words[|words| - 1]))
    decreases |words|
  {
    hide Run;
    hide Quote;
    QuoteRun(before, words[0]);
    if |words| == 1 {
      assert before + words[..0] == before;
    } else {
      var l := Lexer(before, Between);
      RunConcat(l, Quote(words[0]) + " ", QuoteAll(words[1..]));
      RunConcat(l, Quote(words[0]), " ");
      BlankEndsWord(before, words[0]);
      QuoteAllRun(before + [words[0]], words[1..]);
      assert before + [words[0]] + words[1..][..|words| - 2] == before + words[..|words| - 1];
    }
  }

  /** Quoting round trip: any list of words, quoted and joined, lexes back to itself. */
  lemma QuotingRoundTrip(words: seq<string>)
    ensures Split(QuoteAll(words)) == Some(words)
  {
    hide Quote;
    hide Step;
    if words != [] {
      QuoteAllRun([], words);
      assert [] + words[..|words| - 1] + [words[|words| - 1]] == words;
    }
  }

  // ----- Expansion -----

  /** The alias ends outside quotes, escapes and comments. */
  predicate CleanEnd(alias: string)
  {
    var m := Run(START, alias).mode;
    m.Between? || m.Word?
  }

  lemma QuoteAllNonEmpty(words: seq<string>)
    ensures QuoteAll(words) == "" <==> words == []
  {
  }

  lemma CleanBlank(alias: string)
    requires CleanEnd(alias)
    ensures Split(alias).Some? && Run(START, alias + " ") == Lexer(Split(alias).value, Between)
  {
    RunConcat(START, alias, " ");
    RunChar(Run(START, alias), ' ');
  }

  lemma AppendArguments(alias: string, arguments: seq<string>)
    requires CleanEnd(alias) && arguments != []
    ensures Split(alias).Some? && Split(alias + " " + QuoteAll(arguments)) == Some(Split(alias).value + arguments)
  {
    hide Run;
    hide QuoteAll;
    hide CleanEnd;
    CleanBlank(alias);
    var words, n := Split(alias).value, |arguments| - 1;
    RunConcat(START, alias + " ", QuoteAll(arguments));
    QuoteAllRun(words, arguments);
    assert (words + arguments[..n]) + [arguments[n]] == words + arguments;
  }

  /**
   * Appending quoted arguments to an alias yields the alias's words followed by the arguments, whatever the
   * arguments, exactly when the alias ends cleanly.
   */
  lemma AppendsIffClean(alias: string)
    ensures CleanEnd(alias) <==>
      Split(alias).Some? && forall arguments :: arguments != [] ==>
        Split(alias + " " + QuoteAll(arguments)) == Some(Split(alias).value + arguments)
  {
    if CleanEnd(alias) {
      forall arguments: seq<string> | arguments != []
        ensures Split(alias).Some? && Split(alias + " " + QuoteAll(arguments)) == Some(Split(alias).value + arguments)
      {
        AppendArguments(alias, arguments);
      }
      AppendArguments(alias, [""]);
    } else if Run(START, alias).mode.Comment? {
      var l := Run(START, alias);
      RunConcat(START, alias + " ", "x");
      RunConcat(START, alias, " ");
      RunChar(l, ' ');
      RunChar(l, 'x');
      assert QuoteAll(["x"]) == "x";
      assert Split(alias + " " + QuoteAll(["x"])) == Some(l.words);
      assert |Split(alias).value + ["x"]| == |l.words| + 1;
    }
  }

  /** A quoted word that continues a word adds exactly its text. */
  lemma QuoteContinues(words: seq<string>, acc: string, s: string)
    ensures Run(Lexer(words, Word(acc)), Quote(s)) == Lexer(words, Word(acc + s))
  {
    hide Run;
    hide EscapeQuotes;
    if s != "" && AllSafe(s) {
      SafeRun(words, acc, s);
    } else {
      EmptyQuoted();
      EnquotedRun(Lexer(words, Word(acc)), acc, s);
    }
  }

  lemma {:induction false} QuoteAllContinues(words: seq<string>, acc: string, arguments: seq<string>)
    requires arguments != []
    ensures
      Finish(Run(Lexer(words, Word(acc)), QuoteAll(arguments))) == Some(words + [acc + arguments[0]] + arguments[1..])
  {
    hide Run;
    hide Quote;
    var l, word := Lexer(words, Word(acc)), acc + arguments[0];
    QuoteContinues(words, acc, arguments[0]);
    if |arguments| == 1 {
      assert words + [word] + arguments[1..] == words + [word];
    } else {
      RunConcat(l, Quote(arguments[0]) + " ", QuoteAll(arguments[1..]));
      RunConcat(l, Quote(arguments[0]), " ");
      BlankEndsWord(words, word);
      QuoteAllRun(words + [word], arguments[1..]);
      var rest := arguments[1..];
      assert words + [word] + rest[..|rest| - 1] + [rest[|rest| - 1]] == words + [word] + rest;
    }
  }

  /** After a trailing backslash the blank and the first argument become part of the alias's last word. */
  lemma {:induction false} EscapeGlues(alias: string, arguments: seq<string>)
    requires Run(START, alias).mode.Escape? && arguments != []
    ensures
      var l := Run(START, alias);
      Split(alias + " " + QuoteAll(arguments))
      == Some(l.words + [l.mode.acc + " " + arguments[0]] + arguments[1..])
  {
    hide Run;
    hide QuoteAll;
    var l := Run(START, alias);
    RunConcat(START, alias + " ", QuoteAll(arguments));
    RunConcat(START, alias, " ");
    RunChar(l, ' ');
    QuoteAllContinues(l.words, l.mode.acc + " ", arguments);
  }

  // ----- Aliases that do not end cleanly -----

  function IndexOf(s: string, c: char): (r: Option<nat>)
    ensures r.Some? ==> r.value < |s| && s[r.value] == c && c !in s[..r.value]
    ensures r.None? ==> c !in s
  {
    if s == "" then None
    else if s[0] == c then Some(0)
    else
      var rest := IndexOf(s[1..], c);
      assert s == [s[0]] + s[1..];
      if rest.None? then None
      else
        assert s[..rest.value + 1] == [s[0]] + s[1..][..rest.value];
        Some(rest.value + 1)
  }

  /** The first double quote that no backslash escapes; `escaped` says that one precedes the text. */
  function DoubleEnd(s: string, escaped: bool): (r: Option<nat>)
    ensures r.Some? ==> r.value < |s| && s[r.value] == '"'
  {
    if s == "" then None
    else if !escaped && s[0] == '"' then Some(0)
    else
      var rest := DoubleEnd(s[1..], !escaped && s[0] == '\\');
      if rest.None? then None else Some(rest.value + 1)
  }

  /** What one character between double quotes stands for. */
  function DoubleChar(c: char, escaped: bool): string
  {
    if escaped then if c == '\n' then "" else if c in "$`\"\\" then [c] else ['\\', c]
    else if c == '\\' then "" else [c]
  }

  function DoubleText(s: string, escaped: bool): string
  {
    if s == "" then "" else DoubleChar(s[0], escaped) + DoubleText(s[1..], !escaped && s[0] == '\\')
  }

  lemma {:induction false} CommentResumes(words: seq<string>, s: string)
    ensures
      Run(Lexer(words, Comment), s)
      == match IndexOf(s, '\n')
         case None => Lexer(words, Comment)
         case Some(i) => Run(Lexer(words, Between), s[i + 1..])
    decreases |s|
  {
    if s != "" {
      CommentResumes(words, s[1..]);
      var i := IndexOf(s[1..], '\n');
      assert i.Some? ==> s[1..][i.value + 1..] == s[i.value + 2..];
    }
  }

  lemma {:induction false} SingleResumes(words: seq<string>, acc: string, s: string)
    ensures
      Run(Lexer(words, Single(acc)), s)
      == match IndexOf(s, '\'')
         case None => Lexer(words, Single(acc + s))
         case Some(i) => Run(Lexer(words, Word(acc + s[..i])), s[i + 1..])
    decreases |s|
  {
    if s == "" {
      assert acc + s == acc;
    } else if s[0] == '\'' {
      assert acc + s[..0] == acc;
    } else {
      SingleResumes(words, acc + [s[0]], s[1..]);
      var i := IndexOf(s[1..], '\'');
      assert acc + [s[0]] + s[1..] == acc + s;
      if i.Some? {
        assert s[1..][i.value + 1..] == s[i.value + 2..];
        assert acc + [s[0]] + s[1..][..i.value] == acc + s[..i.value + 1];
      }
    }
  }

  function InDouble(words: seq<string>, acc: string, escaped: bool): Lexer
  {
    Lexer(words, if escaped then DoubleEscape(acc) else Double(acc))
  }

  lemma DoubleStep(words: seq<string>, acc: string, escaped: bool, c: char)
    requires escaped || c != '"'
    ensures Step(InDouble(words, acc, escaped), c)
         == InDouble(words, acc + DoubleChar(c, escaped), !escaped && c == '\\')
  {
    assert acc + "" == acc;
  }

  /** The lexer resumes after the end of the double quote, with its text added to the word, or never finishes. */
  predicate ResumesDouble(words: seq<string>, acc: string, escaped: bool, s: string)
  {
    var end := DoubleEnd(s, escaped);
    && (end.None? ==> Finish(Run(InDouble(words, acc, escaped), s)).None?)
    && (end.Some? ==>
          Run(InDouble(words, acc, escaped), s)
          == Run(Lexer(words, Word(acc + DoubleText(s[..end.value], escaped))), s[end.value + 1..]))
  }

  lemma {:induction false} DoubleResumes(words: seq<string>, acc: string, escaped: bool, s: string)
    ensures ResumesDouble(words, acc, escaped, s)
    decreases |s|
  {
    if s == "" {
    } else if !escaped && s[0] == '"' {
      assert acc + DoubleText(s[..0], escaped) == acc;
    } else {
      hide ResumesDouble;
      DoubleResumes(words, acc + DoubleChar(s[0], escaped), !escaped && s[0] == '\\', s[1..]);
      DoubleResumesLater(words, acc, escaped, s);
    }
  }

  lemma DoubleResumesLater(words: seq<string>, acc: string, escaped: bool, s: string)
    requires s != "" && (escaped || s[0] != '"')
    requires ResumesDouble(words, acc + DoubleChar(s[0], escaped), !escaped && s[0] == '\\', s[1..])
    ensures ResumesDouble(words, acc, escaped, s)
  {
    hide DoubleChar;
    hide DoubleText;
    hide Step;
    hide InDouble;
    hide Finish;
    var next, added := !escaped && s[0] == '\\', DoubleChar(s[0], escaped);
    DoubleStep(words, acc, escaped, s[0]);
    var end := DoubleEnd(s[1..], next);
    if end.Some? {
      DoubleTextSplit(s, escaped, end.value);
      assert s[1..][end.value + 1..] == s[end.value + 2..];
      var rest := DoubleText(s[1..][..end.value], next);
      assert acc + added + rest == acc + (added + rest);
    }
  }

  lemma DoubleTextSplit(s: string, escaped: bool, i: nat)
    requires i < |s|
    ensures DoubleText(s[..i + 1], escaped)
         == DoubleChar(s[0], escaped) + DoubleText(s[1..][..i], !escaped && s[0] == '\\')
  {
    hide DoubleChar;
    assert s[..i + 1][1..] == s[1..][..i];
  }

  /**
   * What an alias that leaves the lexer at `l` makes of arguments. After a clean end they follow its words. After a
   * backslash the first continues its last word, behind a blank. In a comment or an open quote their quoted text is
   * read on until its first line end or closing quote, and from there the rest is lexed anew.
   */
  function Appended(l: Lexer, arguments: seq<string>): Option<seq<string>>
    requires arguments != []
  {
    var text := " " + QuoteAll(arguments);
    match l.mode
    case Between => Some(l.words + arguments)
    case Word(acc) => Some(l.words + [acc] + arguments)
    case Escape(acc) => Some(l.words + [acc + " " + arguments[0]] + arguments[1..])
    case Comment =>
      (match IndexOf(text, '\n')
       case None => Some(l.words)
       case Some(i) => Finish(Run(Lexer(l.words, Between), text[i + 1..])))
    case Single(acc) =>
      (match IndexOf(text, '\'')
       case None => None
       case Some(i) => Finish(Run(Lexer(l.words, Word(acc + text[..i])), text[i + 1..])))
    case Double(acc) =>
      (match DoubleEnd(text, false)
       case None => None
       case Some(i) => Finish(Run(Lexer(l.words, Word(acc + DoubleText(text[..i], false))), text[i + 1..])))
    case DoubleEscape(acc) =>
      (match DoubleEnd(text, true)
       case None => None
       case Some(i) => Finish(Run(Lexer(l.words, Word(acc + DoubleText(text[..i], true))), text[i + 1..])))
  }

  lemma {:induction false} AppendedExact(alias: string, arguments: seq<string>)
    requires arguments != []
    ensures Split(alias + " " + QuoteAll(arguments)) == Appended(Run(START, alias), arguments)
  {
    hide Run;
    hide QuoteAll;
    hide IndexOf;
    hide DoubleEnd;
    hide DoubleText;
    var l, text := Run(START, alias), " " + QuoteAll(arguments);
    assert alias + " " + QuoteAll(arguments) == alias + text;
    RunConcat(START, alias, text);
    match l.mode {
      case Between => AppendArguments(alias, arguments);
      case Word(acc) => AppendArguments(alias, arguments);
      case Escape(acc) => EscapeGlues(alias, arguments);
      case Comment => CommentResumes(l.words, text);
      case Single(acc) => SingleResumes(l.words, acc, text);
      case Double(acc) => DoubleResumes(l.words, acc, false, text);
      case DoubleEscape(acc) => DoubleResumes(l.words, acc, true, text);
    }
  }

  predicate NoQuotes(s: string) { '\'' !in s && '"' !in s }

  /** A word that is written without quotes. */
  predicate Plain(s: string) { s != "" && AllSafe(s) }

  predicate OpenSingle(l: Lexer) { l.mode.Single? }

  predicate OpenDouble(l: Lexer) { l.mode.Double? || l.mode.DoubleEscape? }

  lemma {:induction false} PlainAreSafe(words: seq<string>)
    requires forall w :: w in words ==> Plain(w)
    ensures '\'' !in QuoteAll(words)
  {
    if words != [] {
      assert words[0] in words;
      PlainAreSafe(words[1..]);
    }
  }

  lemma {:induction false} NoQuotesEscaped(s: string)
    requires NoQuotes(s)
    ensures EscapeQuotes(s) == s
  {
    if s != "" {
      NoQuotesEscaped(s[1..]);
    }
  }

  lemma {:induction false} NoQuotesQuoted(words: seq<string>)
    requires forall w :: w in words ==> NoQuotes(w)
    ensures '"' !in QuoteAll(words)
  {
    if words != [] {
      assert words[0] in words;
      NoQuotesEscaped(words[0]);
      NoQuotesQuoted(words[1..]);
    }
  }

  lemma {:induction false} NoDoubleEnd(s: string, escaped: bool)
    requires '"' !in s
    ensures DoubleEnd(s, escaped) == None
  {
    if s != "" {
      NoDoubleEnd(s[1..], !escaped && s[0] == '\\');
    }
  }

  /** An alias that leaves a quote open makes the line invalid unless an argument brings a quote that closes it. */
  lemma {:induction false} OpenQuoteFails(alias: string, arguments: seq<string>)
    requires arguments != []
    requires
      || (OpenSingle(Run(START, alias)) && forall w :: w in arguments ==> Plain(w))
      || (OpenDouble(Run(START, alias)) && forall w :: w in arguments ==> NoQuotes(w))
    ensures Split(alias + " " + QuoteAll(arguments)) == None
  {
    hide Run;
    hide QuoteAll;
    AppendedExact(alias, arguments);
    var text := " " + QuoteAll(arguments);
    if OpenSingle(Run(START, alias)) {
      PlainAreSafe(arguments);
      assert '\'' !in text;
    } else {
      NoQuotesQuoted(arguments);
      NoDoubleEnd(text, false);
      NoDoubleEnd(text, true);
    }
  }

  lemma {:induction false} RunNext(l: Lexer, c: char, s: string, t: string)
    requires t == [c] + s
    ensures Run(l, t) == Run(Step(l, c), s)
  {
    assert t[1..] == s;
  }

  lemma OpenSingleRun()
    ensures Run(START, "x '") == Lexer(["x"], Single(""))
  {
    RunNext(START, 'x', " '", "x '");
    assert Step(START, 'x') == Lexer([], Word("x"));
    RunNext(Lexer([], Word("x")), ' ', "'", " '");
    assert Step(Lexer([], Word("x")), ' ') == Lexer(["x"], Between);
    RunNext(Lexer(["x"], Between), '\'', "", "'");
  }

  lemma QuotedBackslashRun()
    ensures Run(Lexer(["x"], Single("")), " '\\'") == Lexer(["x"], Word(" '"))
  {
    assert "" + [' '] == " " && " " + ['\''] == " '";
    RunNext(Lexer(["x"], Single("")), ' ', "'\\'", " '\\'");
    RunNext(Lexer(["x"], Single(" ")), '\'', "\\'", "'\\'");
    RunNext(Lexer(["x"], Word(" ")), '\\', "'", "\\'");
    RunNext(Lexer(["x"], Escape(" ")), '\'', "", "'");
  }

  /** Such an argument need not contain a quote after an open single one: here a backslash comes out as a quote. */
  lemma QuotedArgumentClosesQuote()
    ensures OpenSingle(Run(START, "x '"))
    ensures Split("x '" + " " + QuoteAll(["\\"])) == Some(["x", " '"])
  {
    hide Run;
    hide Step;
    assert QuoteAll(["\\"]) == "'\\'";
    assert "x '" + " " + "'\\'" == "x '" + " '\\'";
    RunConcat(START, "x '", " '\\'");
    OpenSingleRun();
    QuotedBackslashRun();
    assert ["x"] + [" '"] == ["x", " '"];
  }

  /**
   * What a shell line parses into: nothing if it cannot be lexed, its own words if the first is no alias, the alias's
   * words if nothing follows the alias, and otherwise what the alias makes of the remaining words.
   */
  lemma {:induction false} ParsedLine(line: string, aliases: map<string, string>)
    ensures
      ParseArguments(line, aliases)
      == match Split(line)
         case None => None
         case Some(words) =>
           if words == [] || words[0] !in aliases then Some(words)
           else if |words| == 1 then Split(aliases[words[0]])
           else Appended(Run(START, aliases[words[0]]), words[1..])
  {
    hide Run;
    hide QuoteAll;
    hide Appended;
    var parts := Split(line);
    if parts.Some? && parts.value != [] && parts.value[0] in aliases {
      var alias, arguments := aliases[parts.value[0]], parts.value[1..];
      QuoteAllNonEmpty(arguments);
      if arguments != [] {
        AppendedExact(alias, arguments);
      }
    }
  }
}
