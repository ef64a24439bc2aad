/**
  * The LaTeX document builder: an append-only list of lines, each either a command
  * `\name{required}[optional]...` or a line copied from another builder.
  */
module Latex {
  import opened Wrappers
  import opened Strings

  /** A command argument; `optional` selects `[value]` over `{value}`. */
  datatype Arg = Arg(value: string, optional: bool)

  /** `Arg::optional`: an argument rendered in square brackets. */
  function Optional(value: string): (a: Arg)
    ensures RenderArg(a) == "[" + value + "]"
  {
    Arg(value, true)
  }

  /** `Arg::required`: an argument rendered in braces. */
  function Required(value: string): (a: Arg)
    ensures RenderArg(a) == "{" + value + "}"
  {
    Arg(value, false)
  }

  /** One argument: its value, unescaped, between the brackets its kind selects. */
  function RenderArg(a: Arg): (r: string)
    ensures |r| == |a.value| + 2 && r[1..|r| - 1] == a.value
    ensures (r[0] == '[' <==> a.optional) && (r[0] == '{' <==> !a.optional)
    ensures (r[|r| - 1] == ']' <==> a.optional) && (r[|r| - 1] == '}' <==> !a.optional)
  {
    if a.optional then "[" + a.value + "]" else "{" + a.value + "}"
  }

  /** The arguments rendered one after another, in order, with no escaping. */
  function RenderArgs(args: seq<Arg>): string {
    if args == [] then "" else RenderArg(args[0]) + RenderArgs(args[1..])
  }

  /** The one line `add_command` appends: a backslash, the command name, the arguments. */
  function CommandLine(command: string, args: seq<Arg>): string {
    "\\" + command + RenderArgs(args)
  }

  /** A command line is a backslash, then the command's name, then its rendered arguments. */
  lemma CommandLineShape(command: string, args: seq<Arg>)
    ensures var line := CommandLine(command, args);
      |line| == 1 + |command| + |RenderArgs(args)| && line[0] == '\\'
      && line[1..|command| + 1] == command && line[|command| + 1..] == RenderArgs(args)
  {
    var line := CommandLine(command, args);
    assert line == "\\" + (command + RenderArgs(args));
  }

  function BeginLine(env: string): string {
    CommandLine("begin", [Required(env)])
  }

  function EndLine(env: string): string {
    CommandLine("end", [Required(env)])
  }

  /** A non-empty argument list ends with the closing bracket of its last argument. */
  lemma {:induction false} RenderArgsLast(args: seq<Arg>)
    requires args != []
    ensures var r := RenderArgs(args);
      |r| > 0 && r[|r| - 1] == (if args[|args| - 1].optional then ']' else '}')
    decreases |args|
  {
    if |args| > 1 {
      RenderArgsLast(args[1..]);
    } else {
      assert args[1..] == [];
    }
  }

  // ---------------------------------------------------------------------------
  // Reading arguments back

  predicate IsBracket(c: char) {
    c == '{' || c == '}' || c == '[' || c == ']'
  }

  /** An argument value that contains no bracket of either kind. */
  predicate Plain(v: string) {
    forall i :: 0 <= i < |v| ==> !IsBracket(v[i])
  }

  /**
    * Reads a string of `{v}` and `[v]` groups back into arguments; `None` when the
    * string is not such a sequence.
    */
  function ParseArgs(s: string): Option<seq<Arg>>
    decreases |s|
  {
    if s == [] then Some([])
    else if s[0] != '{' && s[0] != '[' then None
    else
      var close := if s[0] == '[' then ']' else '}';
      var k := IndexOf(s[1..], close);
      if k == |s| - 1 then None
      else
        match ParseArgs(s[k + 2..])
        case None => None
        case Some(rest) => Some([Arg(s[1..k + 1], s[0] == '[')] + rest)
  }

  /** Reading one rendered argument in front of `rest`. */
  lemma ParseOneArg(a: Arg, rest: string)
    requires Plain(a.value)
    ensures ParseArgs(RenderArg(a) + rest) ==
      match ParseArgs(rest) case None => None case Some(more) => Some([a] + more)
  {
    var v := a.value;
    var close := if a.optional then ']' else '}';
    var s := RenderArg(a) + rest;
    assert s == [s[0]] + (v + [close] + rest);
    assert s[0] == (if a.optional then '[' else '{');
    assert Free(v, close) by {
      forall i | 0 <= i < |v| ensures v[i] != close {
        assert !IsBracket(v[i]);
      }
    }
    IndexOfAfter(v, close, rest);
    assert s[1..] == v + [close] + rest;
    assert s[|v| + 2..] == rest;
    assert s[1..|v| + 1] == v;
    assert Arg(v, a.optional) == a;
  }

  /**
    * Rendering keeps every argument, its kind and its position: when no value holds a
    * bracket, the rendered arguments read back as exactly the list given.
    */
  lemma {:induction false} ParseRenderArgs(args: seq<Arg>)
    requires forall i :: 0 <= i < |args| ==> Plain(args[i].value)
    ensures ParseArgs(RenderArgs(args)) == Some(args)
    decreases |args|
  {
    if args != [] {
      ParseRenderArgs(args[1..]);
      ParseOneArg(args[0], RenderArgs(args[1..]));
      assert [args[0]] + args[1..] == args;
    }
  }

  // ---------------------------------------------------------------------------
  // Environment nesting

  /** The environment a `\begin{env}` line opens (compared character by character). */
  function Opened(line: string): Option<string> {
    if |line| >= 8 && line[0] == '\\' && line[1] == 'b' && line[2] == 'e' && line[3] == 'g'
      && line[4] == 'i' && line[5] == 'n' && line[6] == '{' && line[|line| - 1] == '}'
    then Some(line[7..|line| - 1]) else None
  }

  /** The environment an `\end{env}` line closes. */
  function Closed(line: string): Option<string> {
    if |line| >= 6 && line[0] == '\\' && line[1] == 'e' && line[2] == 'n' && line[3] == 'd'
      && line[4] == '{' && line[|line| - 1] == '}'
    then Some(line[5..|line| - 1]) else None
  }

  /**
    * Replays the begin/end lines of `lines` on a stack of open environments (top at the
    * end); `None` when an end line does not close the innermost open environment.
    */
  function Nest(lines: seq<string>, stack: seq<string>): Option<seq<string>>
    decreases |lines|
  {
    if lines == [] then Some(stack)
    else match Opened(lines[0])
      case Some(e) => Nest(lines[1..], stack + [e])
      case None =>
        match Closed(lines[0])
        case Some(e) =>
          if |stack| > 0 && stack[|stack| - 1] == e then Nest(lines[1..], stack[..|stack| - 1]) else None
        case None => Nest(lines[1..], stack)
  }

  /** Every environment opened is closed, innermost first. */
  predicate WellNested(lines: seq<string>) {
    Nest(lines, []) == Some([])
  }

  /** A line that neither opens nor closes an environment. */
  predicate NeutralLine(line: string) {
    Opened(line).None? && Closed(line).None?
  }

  lemma RenderRequired(v: string)
    ensures RenderArgs([Required(v)]) == "{" + v + "}"
  {
    assert [Required(v)][1..] == [];
  }

  /** The line `add_simple_command` appends: the command with its one required argument in braces. */
  function SimpleLine(command: string, arg: string): string {
    "\\" + command + "{" + arg + "}"
  }

  lemma SimpleLineIsCommand(command: string, arg: string)
    ensures CommandLine(command, [Required(arg)]) == SimpleLine(command, arg)
  {
    RenderRequired(arg);
  }

  lemma BeginLineOpens(env: string)
    ensures Opened(BeginLine(env)) == Some(env) && Closed(BeginLine(env)).None?
  {
    RenderRequired(env);
    var b := BeginLine(env);
    assert b == "\\" + "begin" + ("{" + env + "}");
    assert b[7..|b| - 1] == env;
  }

  lemma EndLineCloses(env: string)
    ensures Closed(EndLine(env)) == Some(env) && Opened(EndLine(env)).None?
  {
    RenderRequired(env);
    var e := EndLine(env);
    assert e == "\\" + "end" + ("{" + env + "}");
    assert e[5..|e| - 1] == env;
  }

  /** A command whose name starts with neither `b` nor `e` does not affect nesting. */
  lemma CommandNeutral(command: string, args: seq<Arg>)
    requires |command| > 0 && command[0] != 'b' && command[0] != 'e'
    ensures NeutralLine(CommandLine(command, args))
  {
    var line := CommandLine(command, args);
    CommandLineShape(command, args);
    assert line[1] == command[0];
  }

  lemma {:induction false} NestAppend(a: seq<string>, b: seq<string>, stack: seq<string>)
    ensures Nest(a + b, stack) == match Nest(a, stack) case None => None case Some(t) => Nest(b, t)
    decreases |a|
  {
    if a != [] {
      assert (a + b)[0] == a[0] && (a + b)[1..] == a[1..] + b;
      match Opened(a[0])
      case Some(e) => NestAppend(a[1..], b, stack + [e]);
      case None =>
        match Closed(a[0])
        case Some(e) =>
          if |stack| > 0 && stack[|stack| - 1] == e {
            NestAppend(a[1..], b, stack[..|stack| - 1]);
          }
        case None => NestAppend(a[1..], b, stack);
    } else {
      assert a + b == b;
    }
  }

  /** What `lines` does to a stack it also does with more environments open beneath. */
  lemma {:induction false} NestBelow(lines: seq<string>, below: seq<string>, stack: seq<string>, after: seq<string>)
    requires Nest(lines, stack) == Some(after)
    ensures Nest(lines, below + stack) == Some(below + after)
    decreases |lines|
  {
    if lines != [] {
      match Opened(lines[0])
      case Some(e) =>
        assert below + stack + [e] == below + (stack + [e]);
        NestBelow(lines[1..], below, stack + [e], after);
      case None =>
        match Closed(lines[0])
        case Some(e) =>
          var s := below + stack;
          assert s[|s| - 1] == stack[|stack| - 1];
          assert s[..|s| - 1] == below + stack[..|stack| - 1];
          NestBelow(lines[1..], below, stack[..|stack| - 1], after);
        case None => NestBelow(lines[1..], below, stack, after);
    }
  }

  /** Every line of `lines` is neutral. */
  predicate AllNeutral(lines: seq<string>)
    decreases |lines|
  {
    lines == [] || (NeutralLine(lines[0]) && AllNeutral(lines[1..]))
  }

  lemma {:induction false} NeutralConcat(a: seq<string>, b: seq<string>)
    requires AllNeutral(a) && AllNeutral(b)
    ensures AllNeutral(a + b)
    decreases |a|
  {
    if a == [] {
      assert a + b == b;
    } else {
      assert (a + b)[0] == a[0] && (a + b)[1..] == a[1..] + b;
      NeutralConcat(a[1..], b);
    }
  }

  /** Lines that neither open nor close an environment leave the stack as it is. */
  lemma {:induction false} NeutralLines(lines: seq<string>, stack: seq<string>)
    requires AllNeutral(lines)
    ensures Nest(lines, stack) == Some(stack)
    decreases |lines|
  {
    if lines != [] {
      NeutralLines(lines[1..], stack);
    }
  }

  /**
    * Wrapping a well-nested body in `\begin{env}` / `\end{env}` and appending it to
    * well-nested lines keeps them well nested: environments nest to any depth.
    */
  lemma {:induction false} EnvWellNested(before: seq<string>, env: string, body: seq<string>)
    requires WellNested(before) && WellNested(body)
    ensures WellNested(before + [BeginLine(env)] + body + [EndLine(env)])
  {
    BeginLineOpens(env);
    EndLineCloses(env);
    WrapNested(before, BeginLine(env), body, EndLine(env), env);
  }

  /** The same, for any line `b` that opens `env` and any line `e` that closes it. */
  lemma {:induction false} WrapNested(before: seq<string>, b: string, body: seq<string>, e: string, env: string)
    requires Opened(b) == Some(env) && Closed(e) == Some(env) && Opened(e).None?
    requires WellNested(before) && WellNested(body)
    ensures WellNested(before + [b] + body + [e])
  {
    NestBelow(body, [env], [], []);
    assert [env] + [] == [env];
    NestAppend(body, [e], [env]);
    assert [e][1..] == [];
    assert Nest([e], [env]) == Some([]);
    var wrapped := [b] + body + [e];
    assert wrapped[0] == b && wrapped[1..] == body + [e];
    assert [] + [env] == [env];
    assert Nest(wrapped, []) == Some([]);
    NestAppend(before, wrapped, []);
    assert before + [b] + body + [e] == before + wrapped;
  }

  // ---------------------------------------------------------------------------
  // The builder

  /** `LatexBuilder`: the lines of a document under construction, in order. */
  class LatexBuilder {
    var content: seq<string>

    /** A new builder holds no lines. */
    constructor ()
      ensures content == []
    {
      content := [];
    }

    /** Appends the line for `command` with `args`; every earlier line stays as it was. */
    method AddCommand(command: string, args: seq<Arg>)
      modifies this
      ensures content == old(content) + [CommandLine(command, args)]
    {
      content := content + [CommandLine(command, args)];
    }

    /** Shorthand for a command with one required argument. */
    method AddSimpleCommand(command: string, arg: string)
      modifies this
      ensures content == old(content) + [CommandLine(command, [Required(arg)])]
    {
      AddCommand(command, [Required(arg)]);
    }

    /** Appends the lines of `other`, which is left unchanged. */
    method AddBuilder(other: LatexBuilder)
      requires other != this
      modifies this
      ensures content == old(content) + other.content
      ensures other.content == old(other.content)
    {
      content := content + other.content;
    }

    /** Appends `other`'s lines between `\begin{env}` and `\end{env}`; `other` is left unchanged. */
    method AddEnv(env: string, other: LatexBuilder)
      requires other != this
      modifies this
      ensures content == old(content) + [BeginLine(env)] + other.content + [EndLine(env)]
      ensures |content| == |old(content)| + |other.content| + 2
      ensures other.content == old(other.content)
    {
      AddSimpleCommand("begin", env);
      AddBuilder(other);
      AddSimpleCommand("end", env);
    }

    /** The document text: the lines separated by newlines; nothing for an empty builder. */
    function Build(): (text: string)
      reads this
      ensures content == [] ==> text == ""
      ensures |content| == 1 ==> text == content[0]
      ensures content != [] && (forall i :: 0 <= i < |content| ==> Free(content[i], '\n')) ==>
        Split(text, '\n') == content
    {
      if content != [] && (forall i :: 0 <= i < |content| ==> Free(content[i], '\n')) then
        SplitJoin(content, '\n');
        Join(content, "\n")
      else
        Join(content, "\n")
    }
  }
}
