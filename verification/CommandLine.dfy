/** Quoting the worker's command line, against the rules by which Windows programs split one: Microsoft's
    "Parsing C command-line arguments". Characters are Unicode scalars. */
module CommandLine {
  import opened Options
  import opened Paths

  function Backslashes(n: nat): (s: string)
    ensures |s| == n && forall i :: 0 <= i < n ==> s[i] == '\\'
  {
    seq(n, _ => '\\')
  }

  // ---- Quoting ----

  predicate NeedsQuotes(value: string) { exists i :: 0 <= i < |value| && (IsWhitespace(value[i]) || value[i] == '"') }

  /** What is still to be written after `pending` backslashes were read. */
  function QuotedFrom(value: string, pending: nat): string {
    if value == "" then Backslashes(2 * pending) + "\""
    else if value[0] == '\\' then QuotedFrom(value[1..], pending + 1)
    else if value[0] == '"' then Backslashes(2 * pending + 1) + "\"" + QuotedFrom(value[1..], 0)
    else Backslashes(pending) + [value[0]] + QuotedFrom(value[1..], 0)
  }

  function Quoted(value: string): string { if NeedsQuotes(value) then "\"" + QuotedFrom(value, 0) else value }

  method QuoteArgument(value: string) returns (quoted: string)
    ensures quoted == Quoted(value)
  {
    if !NeedsQuotes(value) {
      return value;
    }
    quoted := "\"";
    var backslashes := 0;
    for i := 0 to |value|
      invariant quoted + QuotedFrom(value[i..], backslashes) == Quoted(value)
    {
      assert value[i..][1..] == value[i + 1..];
      if value[i] == '\\' {
        backslashes := backslashes + 1;
      } else if value[i] == '"' {
        quoted := quoted + Backslashes(backslashes * 2 + 1) + "\"";
        backslashes := 0;
      } else {
        quoted := quoted + Backslashes(backslashes) + [value[i]];
        backslashes := 0;
      }
    }
    quoted := quoted + Backslashes(backslashes * 2) + "\"";
  }

  /** The arguments after the program, each behind the space that joins it. */
  function Tail(arguments: seq<string>): string {
    if arguments == [] then "" else " " + Quoted(arguments[0]) + Tail(arguments[1..])
  }

  function Line(executable: string, arguments: seq<string>): string { Quoted(executable) + Tail(arguments) }

  /** The command line, unless it would contain a NUL. */
  method BuildCommandLine(executable: string, arguments: seq<string>) returns (line: Option<string>)
    ensures line == if '\0' in Line(executable, arguments) then None else Some(Line(executable, arguments))
  {
    var joined := QuoteArgument(executable);
    for i := 0 to |arguments|
      invariant joined + Tail(arguments[i..]) == Line(executable, arguments)
    {
      var part := QuoteArgument(arguments[i]);
      assert arguments[i..][1..] == arguments[i + 1..];
      joined := joined + " " + part;
    }
    assert arguments[|arguments|..] == [] && joined + "" == joined;
    return if '\0' in joined then None else Some(joined);
  }

  // ---- Splitting ----

  predicate Blank(c: char) { c == ' ' || c == '\t' }

  function SkipBlanks(s: string): (r: string)
    ensures |r| <= |s|
  {
    if s != "" && Blank(s[0]) then SkipBlanks(s[1..]) else s
  }

  /** The program's name: quotes only group, and nothing escapes them. */
  function Program(s: string, name: string, inQuotes: bool): (r: (string, string))
    ensures |r.1| <= |s|
  {
    if s == "" then (name, "")
    else if s[0] == '"' then Program(s[1..], name, !inQuotes)
    else if Blank(s[0]) && !inQuotes then (name, s[1..])
    else Program(s[1..], name + [s[0]], inQuotes)
  }

  /** The other arguments. Before a quote, two backslashes stand for one and an odd one makes the quote
      literal; elsewhere backslashes are themselves. A doubled quote inside quotes is a literal one. */
  function Arguments(s: string, current: string, inQuotes: bool, pending: nat): seq<string>
    decreases |s|
  {
    if s == "" then
      if current + Backslashes(pending) != "" || inQuotes then [current + Backslashes(pending)] else []
    else if s[0] == '\\' then
      Arguments(s[1..], current, inQuotes, pending + 1)
    else if s[0] == '"' then
      var kept := current + Backslashes(pending / 2);
      if pending % 2 == 1 then Arguments(s[1..], kept + "\"", inQuotes, 0)
      else if !inQuotes then Arguments(s[1..], kept, true, 0)
      else if |s| == 1 then [kept]
      else if s[1] == '"' then Arguments(s[2..], kept + "\"", true, 0)
      else Arguments(s[1..], kept, false, 0)
    else if Blank(s[0]) && !inQuotes then
      [current + Backslashes(pending)] + Arguments(SkipBlanks(s[1..]), "", false, 0)
    else
      Arguments(s[1..], current + Backslashes(pending) + [s[0]], inQuotes, 0)
  }

  function Split(line: string): seq<string> {
    var (name, rest) := Program(line, "", false);
    [name] + Arguments(SkipBlanks(rest), "", false, 0)
  }

  // ---- One argument ----

  /** What is left to read after an argument ended. */
  function Ended(rest: string, argument: string): seq<string> {
    if rest == "" then [argument] else [argument] + Arguments(SkipBlanks(rest[1..]), "", false, 0)
  }

  predicate AtEnd(rest: string) { rest == "" || rest[0] == ' ' }

  lemma {:induction false} BackslashesAreCounted(n: nat, s: string, current: string, inQuotes: bool, pending: nat)
    ensures Arguments(Backslashes(n) + s, current, inQuotes, pending) == Arguments(s, current, inQuotes, pending + n)
  {
    if n == 0 {
      assert Backslashes(0) + s == s;
    } else {
      assert (Backslashes(n) + s)[1..] == Backslashes(n - 1) + s;
      BackslashesAreCounted(n - 1, s, current, inQuotes, pending + 1);
    }
  }

  lemma EscapedQuote(pending: nat, tail: string, current: string)
    ensures Arguments(Backslashes(2 * pending + 1) + ("\"" + tail), current, true, 0)
         == Arguments(tail, current + Backslashes(pending) + "\"", true, 0)
  {
    BackslashesAreCounted(2 * pending + 1, "\"" + tail, current, true, 0);
    assert ("\"" + tail)[1..] == tail;
  }

  lemma OtherCharacter(pending: nat, c: char, tail: string, current: string)
    requires c != '\\' && c != '"'
    ensures Arguments(Backslashes(pending) + ([c] + tail), current, true, 0)
         == Arguments(tail, current + Backslashes(pending) + [c], true, 0)
  {
    BackslashesAreCounted(pending, [c] + tail, current, true, 0);
    assert ([c] + tail)[1..] == tail;
  }

  lemma ClosingQuote(pending: nat, rest: string, current: string)
    requires AtEnd(rest)
    ensures Arguments(Backslashes(2 * pending) + ("\"" + rest), current, true, 0)
      == Ended(rest, current + Backslashes(pending))
  {
    BackslashesAreCounted(2 * pending, "\"" + rest, current, true, 0);
    assert ("\"" + rest)[1..] == rest;
    var kept := current + Backslashes(pending);
    if rest != "" {
      assert kept + Backslashes(0) == kept;
    }
  }

  lemma Regroup(a: string, b: string, c: string, d: string)
    ensures a + b + c + d == a + (b + (c + d))
    ensures a + b + (c + d) == a + (b + c) + d
  {
  }

  lemma {:induction false} QuotedReadsBack(value: string, pending: nat, rest: string, current: string)
    requires AtEnd(rest)
    ensures Arguments(QuotedFrom(value, pending) + rest, current, true, 0)
      == Ended(rest, current + Backslashes(pending) + value)
    decreases |value|
  {
    if value == "" {
      assert QuotedFrom(value, pending) + rest == Backslashes(2 * pending) + ("\"" + rest);
      ClosingQuote(pending, rest, current);
      assert current + Backslashes(pending) + value == current + Backslashes(pending);
    } else if value[0] == '\\' {
      QuotedReadsBack(value[1..], pending + 1, rest, current);
      assert current + Backslashes(pending + 1) + value[1..] == current + Backslashes(pending) + value;
    } else {
      var tail, front := QuotedFrom(value[1..], 0), current + Backslashes(pending) + [value[0]];
      if value[0] == '"' {
        Regroup(Backslashes(2 * pending + 1), "\"", tail, rest);
        EscapedQuote(pending, tail + rest, current);
      } else {
        Regroup(Backslashes(pending), [value[0]], tail, rest);
        OtherCharacter(pending, value[0], tail + rest, current);
      }
      QuotedReadsBack(value[1..], 0, rest, front);
      assert front + Backslashes(0) + value[1..] == current + Backslashes(pending) + value;
    }
  }

  lemma {:induction false} PlainReadsBack(value: string, pending: nat, rest: string, current: string)
    requires AtEnd(rest) && !NeedsQuotes(value) && current + Backslashes(pending) + value != ""
    ensures Arguments(value + rest, current, false, pending) == Ended(rest, current + Backslashes(pending) + value)
    decreases |value|
  {
    if value == "" {
      assert value + rest == rest;
      assert current + Backslashes(pending) + value == current + Backslashes(pending);
    } else {
      assert (value + rest)[1..] == value[1..] + rest;
      if value[0] == '\\' {
        assert current + Backslashes(pending + 1) + value[1..] == current + Backslashes(pending) + value;
        PlainReadsBack(value[1..], pending + 1, rest, current);
      } else {
        var next := current + Backslashes(pending) + [value[0]];
        assert next + Backslashes(0) + value[1..] == current + Backslashes(pending) + value;
        PlainReadsBack(value[1..], 0, rest, next);
      }
    }
  }

  lemma NoBackslashes(s: string)
    ensures Backslashes(0) == "" && s + Backslashes(0) == s && Backslashes(0) + s == s
  {
  }

  lemma OpeningQuote(tail: string)
    ensures Arguments(SkipBlanks("\"" + tail), "", false, 0) == Arguments(tail, "", true, 0)
  {
    NoBackslashes("");
    assert ("\"" + tail)[1..] == tail;
  }

  lemma QuotedArgumentReadsBack(value: string, rest: string)
    requires AtEnd(rest) && NeedsQuotes(value)
    ensures Arguments(SkipBlanks(Quoted(value) + rest), "", false, 0) == Ended(rest, value)
  {
    assert Quoted(value) + rest == "\"" + (QuotedFrom(value, 0) + rest);
    OpeningQuote(QuotedFrom(value, 0) + rest);
    QuotedReadsBack(value, 0, rest, "");
    assert "" + Backslashes(0) + value == value;
  }

  lemma PlainArgumentReadsBack(value: string, rest: string)
    requires AtEnd(rest) && value != "" && !NeedsQuotes(value)
    ensures Arguments(SkipBlanks(Quoted(value) + rest), "", false, 0) == Ended(rest, value)
  {
    var text := value + rest;
    assert value[0] in value;
    assert SkipBlanks(text) == text;
    NoBackslashes(value);
    assert "" + Backslashes(0) + value == value;
    PlainReadsBack(value, 0, rest, "");
  }

  // ---- All arguments ----

  function NonEmpty(arguments: seq<string>): seq<string> {
    if arguments == [] then []
    else if arguments[0] == "" then NonEmpty(arguments[1..])
    else [arguments[0]] + NonEmpty(arguments[1..])
  }

  lemma BeyondTheEnd(rest: string, value: string)
    requires AtEnd(rest)
    ensures Ended(rest, value) == [value] + Arguments(SkipBlanks(rest), "", false, 0)
  {
    if rest == "" {
      NoBackslashes("");
      assert [value] + [] == [value];
    }
  }

  lemma NextArgument(value: string, rest: string)
    requires AtEnd(rest)
    ensures Arguments(SkipBlanks(" " + Quoted(value) + rest), "", false, 0)
         == (if value == "" then [] else [value]) + Arguments(SkipBlanks(rest), "", false, 0)
  {
    assert (" " + Quoted(value) + rest)[1..] == Quoted(value) + rest;
    if value == "" {
      assert Quoted(value) + rest == rest;
    } else if NeedsQuotes(value) {
      QuotedArgumentReadsBack(value, rest);
      BeyondTheEnd(rest, value);
    } else {
      PlainArgumentReadsBack(value, rest);
      BeyondTheEnd(rest, value);
    }
  }

  /** An empty argument is not quoted, so it vanishes; every other argument comes back as it was. */
  lemma {:induction false} ArgumentsReadBack(arguments: seq<string>)
    ensures Arguments(SkipBlanks(Tail(arguments)), "", false, 0) == NonEmpty(arguments)
  {
    if arguments == [] {
      NoBackslashes("");
    } else {
      NextArgument(arguments[0], Tail(arguments[1..]));
      ArgumentsReadBack(arguments[1..]);
    }
  }

  lemma {:induction false} NonEmptyIsAllIff(arguments: seq<string>)
    ensures |NonEmpty(arguments)| <= |arguments|
    ensures NonEmpty(arguments) == arguments <==> "" !in arguments
  {
    if arguments != [] {
      NonEmptyIsAllIff(arguments[1..]);
      assert arguments == [arguments[0]] + arguments[1..];
      if arguments[0] != "" && NonEmpty(arguments) == arguments {
        assert NonEmpty(arguments)[1..] == NonEmpty(arguments[1..]);
      }
    }
  }

  // ---- The program ----

  /** How many backslashes end the value, `pending` of them read already. */
  function Trailing(value: string, pending: nat): nat {
    if value == "" then pending else Trailing(value[1..], if value[0] == '\\' then pending + 1 else 0)
  }

  lemma {:induction false} TrailingIsZeroIff(value: string, pending: nat)
    ensures Trailing(value, pending) == 0 <==> if value == "" then pending == 0 else value[|value| - 1] != '\\'
    decreases |value|
  {
    if value != "" {
      TrailingIsZeroIff(value[1..], if value[0] == '\\' then pending + 1 else 0);
    }
  }

  /** Without quotes inside, quoting doubles the backslashes at the end and changes nothing else. */
  lemma {:induction false} QuotedWithoutQuotes(value: string, pending: nat)
    requires '"' !in value
    ensures QuotedFrom(value, pending) == Backslashes(pending) + value + Backslashes(Trailing(value, pending)) + "\""
    decreases |value|
  {
    if value == "" {
      assert Backslashes(2 * pending) == Backslashes(pending) + value + Backslashes(pending);
    } else if value[0] == '\\' {
      QuotedWithoutQuotes(value[1..], pending + 1);
      assert Backslashes(pending + 1) + value[1..] == Backslashes(pending) + value;
    } else {
      var rest, end := value[1..], Backslashes(Trailing(value[1..], 0)) + "\"";
      QuotedWithoutQuotes(rest, 0);
      assert QuotedFrom(rest, 0) == rest + end;
      Regroup(Backslashes(pending), [value[0]], rest, end);
      assert [value[0]] + rest == value;
    }
  }

  lemma {:induction false} ProgramHasNoQuote(s: string, name: string, inQuotes: bool)
    requires '"' !in name
    ensures '"' !in Program(s, name, inQuotes).0
    decreases |s|
  {
    if s != "" {
      if s[0] == '"' {
        ProgramHasNoQuote(s[1..], name, !inQuotes);
      } else if !(Blank(s[0]) && !inQuotes) {
        ProgramHasNoQuote(s[1..], name + [s[0]], inQuotes);
      }
    }
  }

  lemma {:induction false} ProgramReads(value: string, rest: string, name: string, inQuotes: bool)
    requires '"' !in value && (inQuotes || forall c :: c in value ==> !Blank(c))
    ensures Program(value + rest, name, inQuotes) == Program(rest, name + value, inQuotes)
    decreases |value|
  {
    if value == "" {
      assert value + rest == rest && name + value == name;
    } else {
      assert value[0] in value && (value + rest)[1..] == value[1..] + rest;
      assert name + [value[0]] + value[1..] == name + value;
      ProgramReads(value[1..], rest, name + [value[0]], inQuotes);
    }
  }

  function AfterSpace(rest: string): string { if rest == "" then "" else rest[1..] }

  /** Quotes around a program's name are taken off. */
  lemma GroupedProgram(inside: string, rest: string)
    requires AtEnd(rest) && '"' !in inside
    ensures Program("\"" + inside + "\"" + rest, "", false) == (inside, AfterSpace(rest))
  {
    var text, tail := "\"" + inside + "\"" + rest, "\"" + rest;
    assert text[1..] == inside + tail && tail[1..] == rest;
    ProgramReads(inside, tail, "", true);
    assert "" + inside == inside;
    assert Program(text, "", false) == Program(tail, inside, true) == Program(rest, inside, false);
  }

  /** The program's name as it is read: the quoting doubles the backslashes that end it. */
  function AsRead(executable: string): string {
    if NeedsQuotes(executable) then executable + Backslashes(Trailing(executable, 0)) else executable
  }

  lemma ProgramReadsBack(executable: string, rest: string)
    requires AtEnd(rest) && '"' !in executable
    ensures Program(Quoted(executable) + rest, "", false) == (AsRead(executable), AfterSpace(rest))
  {
    if NeedsQuotes(executable) {
      QuotedWithoutQuotes(executable, 0);
      assert Backslashes(0) + executable == executable;
      GroupedProgram(AsRead(executable), rest);
      assert Quoted(executable) == "\"" + AsRead(executable) + "\"";
    } else {
      ProgramReads(executable, rest, "", false);
      assert "" + executable == executable;
    }
  }

  // ---- The whole line ----

  predicate ProgramIsPlain(executable: string) {
    && '"' !in executable
    && !(NeedsQuotes(executable) && executable[|executable| - 1] == '\\')
  }

  lemma SplitIsProgramAndArguments(executable: string, arguments: seq<string>)
    requires '"' !in executable
    ensures Split(Line(executable, arguments)) == [AsRead(executable)] + NonEmpty(arguments)
  {
    ProgramReadsBack(executable, Tail(arguments));
    ArgumentsReadBack(arguments);
    if arguments != [] {
      assert SkipBlanks(Tail(arguments)) == SkipBlanks(Tail(arguments)[1..]);
    }
  }

  /** The command line gives the worker back its own arguments exactly when none is empty and the
      program's path has no quote, and no backslash at its end if it has to be quoted. */
  lemma RoundTripIff(executable: string, arguments: seq<string>)
    ensures Split(Line(executable, arguments)) == [executable] + arguments
       <==> ProgramIsPlain(executable) && "" !in arguments
  {
    var split := Split(Line(executable, arguments));
    NonEmptyIsAllIff(arguments);
    if '"' in executable {
      ProgramHasNoQuote(Line(executable, arguments), "", false);
      assert split[0] != executable;
      assert ([executable] + arguments)[0] == executable;
    } else {
      SplitIsProgramAndArguments(executable, arguments);
      assert split[1..] == NonEmpty(arguments) && ([executable] + arguments)[1..] == arguments;
      assert executable + Backslashes(0) == executable;
      TrailingIsZeroIff(executable, 0);
    }
  }

  /** An empty argument is lost. */
  lemma EmptyArgumentIsLost()
    ensures Split(Line("p", [""])) != ["p", ""]
  {
    RoundTripIff("p", [""]);
    assert "" in [""];
    assert ["p"] + [""] == ["p", ""];
  }

  /** A program's path that has to be quoted and ends in a backslash comes back with two. */
  lemma FinalBackslashIsDoubled()
    ensures Split(Line("p q\\", [])) == ["p q\\\\"]
  {
    var program := "p q\\";
    assert IsWhitespace(program[1]);
    assert NeedsQuotes(program);
    SplitIsProgramAndArguments(program, []);
    assert Trailing(program, 0) == 1 by {
      assert program[1..] == " q\\" && program[1..][1..] == "q\\" && program[1..][1..][1..] == "\\";
      assert Trailing("\\", 0) == Trailing("", 1);
    }
    assert program + Backslashes(1) == "p q\\\\";
    assert ["p q\\\\"] + [] == ["p q\\\\"];
  }
}
