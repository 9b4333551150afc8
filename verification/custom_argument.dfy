/** proxy/command/args/CustomArgument.kt: the error text a custom command
    argument produces when its parser fails. A message builder collects
    text with two placeholders, one for the argument's own input and one for
    the whole command line, which are filled in when the error is raised. */
module CustomArgument {
  import opened Wrappers
  import opened Text

  /** Lines 28-29: the argument-input and full-input placeholders. */
  const Input := "%input%"
  const FullInput := "%finput%"

  /** Line 74: the marker after the offending input. */
  const Here := "<--[HERE]"

  /** `MessageBuilder` (lines 69-78): the text built so far. */
  datatype MessageBuilder = MessageBuilder(text: string)

  function NewBuilder(initial: string): MessageBuilder {
    MessageBuilder(initial)
  }

  function AppendArgInput(b: MessageBuilder): MessageBuilder {
    MessageBuilder(b.text + Input)
  }

  function AppendFullInput(b: MessageBuilder): MessageBuilder {
    MessageBuilder(b.text + FullInput)
  }

  function AppendHere(b: MessageBuilder): MessageBuilder {
    MessageBuilder(b.text + Here)
  }

  function Append(b: MessageBuilder, s: string): MessageBuilder {
    MessageBuilder(b.text + s)
  }

  /** Lines 63-64 and 104: the argument's input replaces its placeholder
      first; the full input then replaces its own in the result. */
  function Substitute(text: string, rawInput: string, fullInput: string): string {
    ReplaceAll(ReplaceAll(text, Input, rawInput), FullInput, fullInput)
  }

  const ErrorPrefix := "Error in executing command "
  const Separator := " - "

  /** Lines 57-64: the builder `parseArgument` fills for an unexpected
      exception. */
  function ErrorBuilder(): MessageBuilder {
    AppendHere(AppendArgInput(Append(AppendFullInput(NewBuilder(ErrorPrefix)), Separator)))
  }

  /** Lines 57-65: the message an unexpected parser exception becomes. */
  function ErrorMessage(rawInput: string, fullInput: string): string {
    Substitute(ErrorBuilder().text, rawInput, fullInput)
  }

  /** A text without '%' holds no placeholder. */
  predicate Plain(s: string) {
    forall i :: 0 <= i < |s| ==> s[i] != '%'
  }

  /** A plain text is left as it is by any replacement of a placeholder. */
  lemma PlainUnchanged(s: string, p: string, r: string)
    requires |p| > 0 && p[0] == '%' && Plain(s)
    ensures ReplaceAll(s, p, r) == s
  {
    ReplaceSkipsPrefix(s, [], p, r);
    assert s + [] == s;
    assert ReplaceAll([], p, r) == [];
  }

  /** The full-input placeholder is not mistaken for the argument's one
      when what follows it does not continue the match. */
  lemma SkipFullPlaceholder(x: string, r: string)
    requires |x| > 0 && x[0] == ' '
    ensures ReplaceAll(FullInput + x, Input, r) == FullInput + ReplaceAll(x, Input, r)
  {
    assert !StartsAt(FullInput + x, Input, 0) by {
      assert (FullInput + x)[1] == 'f';
    }
    ReplaceMissesHead(FullInput + x, Input, r);
    assert (FullInput + x)[1..] == "finput" + ("%" + x);
    ReplaceSkipsPrefix("finput", "%" + x, Input, r);
    assert !StartsAt("%" + x, Input, 0) by {
      assert ("%" + x)[1] == ' ';
    }
    ReplaceMissesHead("%" + x, Input, r);
    assert ("%" + x)[1..] == x;
  }

  lemma BuilderText()
    ensures ErrorBuilder().text == ErrorPrefix + (FullInput + (Separator + (Input + Here)))
  {
  }

  lemma PlainPieces()
    ensures Plain(ErrorPrefix) && Plain(Separator) && Plain(Here)
  {
  }

  /** The placeholder and the marker after it. */
  lemma ArgumentTail(rawInput: string)
    ensures ReplaceAll(Input + Here, Input, rawInput) == rawInput + Here
  {
    ReplaceAtHead(Input, Here, rawInput);
    PlainUnchanged(Here, Input, rawInput);
  }

  /** The first pass rewrites the single argument placeholder. */
  lemma ArgumentPass(rawInput: string)
    ensures ReplaceAll(ErrorBuilder().text, Input, rawInput)
      == ErrorPrefix + (FullInput + (Separator + (rawInput + Here)))
  {
    var tail := Input + Here;
    var x := Separator + tail;
    BuilderText();
    PlainPieces();
    ArgumentTail(rawInput);
    ReplaceSkipsPrefix(Separator, tail, Input, rawInput);
    assert ReplaceAll(x, Input, rawInput) == Separator + (rawInput + Here);
    SkipFullPlaceholder(x, rawInput);
    ReplaceSkipsPrefix(ErrorPrefix, FullInput + x, Input, rawInput);
  }

  /** Joining texts without '%' gives a text without '%'. */
  lemma PlainConcat(a: string, b: string)
    requires Plain(a) && Plain(b)
    ensures Plain(a + b)
  {
    forall i | 0 <= i < |a + b|
      ensures (a + b)[i] != '%'
    {
      if i >= |a| {
        assert (a + b)[i] == b[i - |a|];
      }
    }
  }

  /** A placeholder between two texts without '%' is the only thing a
      replacement of it rewrites. */
  lemma ReplaceBetweenPlain(a: string, p: string, y: string, f: string)
    requires |p| > 0 && p[0] == '%' && Plain(a) && Plain(y)
    ensures ReplaceAll(a + (p + y), p, f) == a + (f + y)
  {
    ReplaceSkipsPrefix(a, p + y, p, f);
    ReplaceAtHead(p, y, f);
    PlainUnchanged(y, p, f);
  }

  /** What follows the full-input placeholder holds no '%'. */
  lemma PlainTail(rawInput: string)
    requires Plain(rawInput)
    ensures Plain(Separator + (rawInput + Here))
  {
    PlainPieces();
    PlainConcat(rawInput, Here);
    PlainConcat(Separator, rawInput + Here);
  }

  /** The second pass rewrites the full-input placeholder and, the argument's
      input holding none, nothing else. */
  lemma FullInputPass(rawInput: string, fullInput: string)
    requires Plain(rawInput)
    ensures ReplaceAll(ErrorPrefix + (FullInput + (Separator + (rawInput + Here))), FullInput, fullInput)
      == ErrorPrefix + (fullInput + (Separator + (rawInput + Here)))
  {
    PlainTail(rawInput);
    PlainPieces();
    assert FullInput[0] == '%';
    ReplaceBetweenPlain(ErrorPrefix, FullInput, Separator + (rawInput + Here), fullInput);
  }

  lemma Flatten(a: string, b: string, c: string, d: string, e: string)
    ensures a + (b + (c + (d + e))) == a + b + c + d + e
  {
  }

  /** With an argument input free of '%', the error message reads as the
      builder's pieces with both inputs in place: the prefix, the whole
      command line, the separator, the argument's input and the marker. */
  lemma ErrorMessageShape(rawInput: string, fullInput: string)
    requires Plain(rawInput)
    ensures ErrorMessage(rawInput, fullInput) == ErrorPrefix + fullInput + Separator + rawInput + Here
  {
    ArgumentPass(rawInput);
    FullInputPass(rawInput, fullInput);
    Flatten(ErrorPrefix, fullInput, Separator, rawInput, Here);
  }

  /** `CustomArgumentException` (lines 80-112): which of the three error
      forms it carries. The component is kept as the string its
      `ComponentLike.toString()` gives, which is what line 101 shows the
      player: Adventure's debug form, not the component's plain text. */
  datatype ArgumentException = ArgumentException(
    component: Option<string>, message: Option<string>, builder: Option<MessageBuilder>)

  /** `fromAdventureComponent`, given the component's `toString()`. */
  function FromComponent(component: string): ArgumentException {
    ArgumentException(Some(component), None, None)
  }

  function FromString(message: string): ArgumentException {
    ArgumentException(None, Some(message), None)
  }

  function FromBuilder(builder: MessageBuilder): ArgumentException {
    ArgumentException(None, None, Some(builder))
  }

  const NoErrorSpecified := "No error component or message specified"

  /** `toCommandSyntax` (lines 99-111): the component wins, then the builder
      with both placeholders filled, then the plain message; with none of
      them the call fails with an IllegalStateException. */
  function ToCommandSyntax(e: ArgumentException, result: string, fullInput: string): (r: Result<string, string>)
    ensures r.Failure? <==> e.component.None? && e.builder.None? && e.message.None?
    ensures r.Failure? ==> r.error == NoErrorSpecified
    ensures e.component.Some? ==> r == Success(e.component.value)
    ensures e.component.None? && e.builder.Some? ==> r == Success(Substitute(e.builder.value.text, result, fullInput))
    ensures e.component.None? && e.builder.None? && e.message.Some? ==> r == Success(e.message.value)
  {
    if e.component.Some? then Success(e.component.value)
    else if e.builder.Some? then Success(Substitute(e.builder.value.text, result, fullInput))
    else if e.message.Some? then Success(e.message.value)
    else Failure(NoErrorSpecified)
  }

  /** An exception made by any of the three factories converts without the
      IllegalStateException: to the component's `toString()`, to the
      message, or to the builder's text with both placeholders filled. */
  lemma FactoriesConvert(text: string, builder: MessageBuilder, result: string, fullInput: string)
    ensures ToCommandSyntax(FromComponent(text), result, fullInput) == Success(text)
    ensures ToCommandSyntax(FromString(text), result, fullInput) == Success(text)
    ensures ToCommandSyntax(FromBuilder(builder), result, fullInput) == Success(Substitute(builder.text, result, fullInput))
  {
  }

  /** A builder message without placeholders is used as it is. */
  lemma PlainBuilderVerbatim(builder: MessageBuilder, result: string, fullInput: string)
    requires Plain(builder.text)
    ensures ToCommandSyntax(FromBuilder(builder), result, fullInput) == Success(builder.text)
  {
    PlainUnchanged(builder.text, Input, result);
    PlainUnchanged(builder.text, FullInput, fullInput);
  }

  /** What the user's parser did with the argument. */
  datatype ParseOutcome<T> = Parsed(value: T) | RaisedArgument(exception: ArgumentException) | RaisedOther

  /** How `parseArgument` fails. */
  datatype ArgumentError =
    | NotCommandSource
    | Syntax(message: string)
    | IllegalState(message: string)

  /** `parseArgument` (lines 42-67) after the base argument has parsed. */
  function ParseArgument<T>(fromCommandSource: bool, outcome: ParseOutcome<T>, rawInput: string, fullInput: string): (r: Result<T, ArgumentError>)
    ensures !fromCommandSource ==> r == Failure(NotCommandSource)
    ensures fromCommandSource && outcome.Parsed? ==> r == Success(outcome.value)
    ensures fromCommandSource && outcome.RaisedOther? ==> r == Failure(Syntax(ErrorMessage(rawInput, fullInput)))
    ensures fromCommandSource && outcome.RaisedArgument? ==>
      (r.Failure? && (r.error.IllegalState? <==> ToCommandSyntax(outcome.exception, rawInput, fullInput).Failure?))
    ensures fromCommandSource && outcome.RaisedArgument? && ToCommandSyntax(outcome.exception, rawInput, fullInput).Success? ==>
      r == Failure(Syntax(ToCommandSyntax(outcome.exception, rawInput, fullInput).value))
    ensures fromCommandSource && outcome.RaisedArgument? && ToCommandSyntax(outcome.exception, rawInput, fullInput).Failure? ==>
      r == Failure(IllegalState(NoErrorSpecified))
    ensures r.Success? <==> fromCommandSource && outcome.Parsed?
  {
    if !fromCommandSource then Failure(NotCommandSource)
    else
      match outcome
      case Parsed(v) => Success(v)
      case RaisedArgument(e) =>
        (match ToCommandSyntax(e, rawInput, fullInput)
         case Success(m) => Failure(Syntax(m))
         case Failure(m) => Failure(IllegalState(m)))
      case RaisedOther => Failure(Syntax(ErrorMessage(rawInput, fullInput)))
  }

  /** The kinds of base argument the constructor distinguishes. */
  datatype BaseKind = LiteralBase | MultiLiteralBase | OtherBase(simpleName: string)

  function SimpleName(kind: BaseKind): string {
    match kind
    case LiteralBase => "LiteralArgument"
    case MultiLiteralBase => "MultiLiteralArgument"
    case OtherBase(n) => n
  }

  /** The `init` check (lines 32-36): literal bases are refused with a
      message naming their class. */
  function CheckBase(kind: BaseKind): (r: Result<(), string>)
    ensures r.Success? <==> kind.OtherBase?
    ensures r.Failure? ==> r.error == SimpleName(kind) + " is not a suitable base argument type for a CustomArgument"
  {
    if kind.OtherBase? then Success(())
    else Failure(SimpleName(kind) + " is not a suitable base argument type for a CustomArgument")
  }
}
