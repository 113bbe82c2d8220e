/** The global command-error handler: what it does with each error a command raises. */
module ErrorHandler {
  import opened Wrappers

  /**
   * The error classes the handler distinguishes. `Subclass(base, name)` is any other
   * class deriving from `base` (MessageNotFound from BadArgument, say); `Other` is a
   * class outside every listed hierarchy.
   */
  datatype ErrorKind =
    | CommandNotFound
    | NotOwner
    | BadArgument
    | MemberNotFound
    | RoleNotFound
    | MissingRequiredArgument
    | CommandOnCooldown
    | Blacklisted
    | MissingPermissions
    | BotMissingPermissions
    | TooManyArguments
    | ArgumentParsingError
    | BadUnionArgument
    | CommandInvokeError
    | Subclass(base: ErrorKind, name: string)
    | Other(name: string)

  /** An exception: its class, its `str()`, and the wrapped `original` some errors carry. */
  datatype Failure = Failure(kind: ErrorKind, message: string)
  datatype CommandError = CommandError(error: Failure, original: Option<Failure>)

  /** The invoked command, if any: whether it has its own handler, and, if it has a parent, whether that has one. */
  datatype CommandView = CommandView(hasHandler: bool, parentHasHandler: Option<bool>)

  datatype Outcome =
    | Ignored
    | Delegated
    | Replied(text: string)
    | Reported(text: string)
    | HandlerRaised

  /** `isinstance(error, ignored_errors)`. */
  predicate IsIgnored(kind: ErrorKind) {
    match kind
    case Subclass(base, _) => IsIgnored(base)
    case _ => kind == CommandNotFound
  }

  /** `isinstance(error, str_errors)`: the listed classes, and the not-found errors that subclass BadArgument. */
  predicate IsStrError(kind: ErrorKind) {
    match kind
    case Subclass(base, _) => IsStrError(base)
    case _ =>
      kind in {NotOwner, BadArgument, MissingRequiredArgument, CommandOnCooldown, Blacklisted, MissingPermissions,
               BotMissingPermissions, TooManyArguments, ArgumentParsingError, BadUnionArgument}
      || kind in {MemberNotFound, RoleNotFound}
  }

  /** `getattr(error, "original", error)`. */
  function Unwrapped(e: CommandError): Failure {
    if e.original.Some? then e.original.value else e.error
  }

  /**
   * `command_error`: classify the unwrapped error. Ignored errors end first; the
   * two conditions are built eagerly, so with no command the second one raises;
   * a handler on the command or its parent takes over; listed errors get their
   * text as the reply; everything else is reported.
   */
  function Handle(command: Option<CommandView>, e: CommandError): (r: Outcome)
    ensures IsIgnored(Unwrapped(e).kind) <==> r == Ignored
    ensures r == HandlerRaised <==> !IsIgnored(Unwrapped(e).kind) && command.None?
    ensures r == Delegated <==>
      (!IsIgnored(Unwrapped(e).kind) && command.Some? &&
       (command.value.hasHandler || command.value.parentHasHandler == Some(true)))
    ensures r.Replied? <==>
      (!IsIgnored(Unwrapped(e).kind) && command.Some? && !command.value.hasHandler &&
       command.value.parentHasHandler != Some(true) && IsStrError(Unwrapped(e).kind))
    ensures r.Replied? ==> r.text == Unwrapped(e).message
    ensures r.Reported? <==>
      (!IsIgnored(Unwrapped(e).kind) && command.Some? && !command.value.hasHandler &&
       command.value.parentHasHandler != Some(true) && !IsStrError(Unwrapped(e).kind))
    ensures r.Reported? ==> r.text == "```\n" + Unwrapped(e).message + "```"
  {
    var error := Unwrapped(e);
    if IsIgnored(error.kind) then Ignored
    else if command.None? then HandlerRaised
    else
      var conditions := [command.value.hasHandler, command.value.parentHasHandler == Some(true)];
      if conditions[0] || conditions[1] then Delegated
      else if IsStrError(error.kind) then Replied(error.message)
      else Reported("```\n" + error.message + "```")
  }

  /** A wrapped error is judged by what it wraps: a BadArgument inside an invoke error is answered with its text. */
  lemma OriginalDecides(command: CommandView, message: string, inner: string)
    requires !command.hasHandler && command.parentHasHandler != Some(true)
    ensures Handle(Some(command), CommandError(Failure(CommandInvokeError, message), Some(Failure(BadArgument, inner)))) == Replied(inner)
    ensures Handle(Some(command), CommandError(Failure(CommandInvokeError, message), None)) == Reported("```\n" + message + "```")
  {
  }

  /** A subclass is handled exactly as the class it derives from. */
  lemma {:induction false} SubclassHandledLikeBase(command: Option<CommandView>, base: ErrorKind, name: string, message: string)
    ensures Handle(command, CommandError(Failure(Subclass(base, name), message), None)) ==
            Handle(command, CommandError(Failure(base, message), None))
  {
  }

  /** `dev delete abc`: the message converter's MessageNotFound derives from BadArgument, so its text is the reply. */
  lemma MessageNotFoundReplied(command: CommandView, message: string)
    requires !command.hasHandler && command.parentHasHandler != Some(true)
    ensures Handle(Some(command), CommandError(Failure(Subclass(BadArgument, "MessageNotFound"), message), None)) == Replied(message)
  {
  }

  /** An unknown command is ignored even when no command was resolved. */
  lemma UnknownCommandIgnored(message: string)
    ensures Handle(None, CommandError(Failure(CommandNotFound, message), None)) == Ignored
  {
  }
}
