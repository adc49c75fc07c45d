/** The `joinChat` server action: a form submission carrying a session code
    is validated by a schema (`code` must be a string, trimmed, at least one
    character long) and either redirects to the chat page for that code or
    hands the field errors back to the form. */
module Actions {
  import opened JsString

  /** What `formData.get('code')` can give: the text of a form field, an
      uploaded file, or nothing when the form has no such field. */
  datatype FormValue = Text(value: string) | Upload | Missing

  /** The outcome of the schema's `safeParse` on the `code` field. */
  datatype Parsed = Valid(code: string) | Invalid(issues: seq<string>)

  /** What `joinChat` does: redirect (Next.js `redirect`, which never returns
      to the caller), or return `{ error: fieldErrors }`, whose only field is
      `code`. */
  datatype JoinResult = Redirect(path: string) | FieldErrors(code: seq<string>)

  const CodeRequired: string := "Code is required."
  const ChatPathPrefix: string := "/chat/"

  /** The schema `z.object({ code: z.string().trim().min(1, ...) })`: a string
      is trimmed before its length is checked, and the parsed code is the
      trimmed one. A value that is not a string gets the schema library's
      type-mismatch message instead. */
  function ParseCode(v: FormValue): (r: Parsed)
    ensures r.Valid? <==> v.Text? && |Trim(v.value)| >= 1
    ensures r.Valid? ==> r.code == Trim(v.value)
    ensures v.Text? && AllWhitespace(v.value) ==> r == Invalid([CodeRequired])
    ensures r.Invalid? ==> |r.issues| == 1
  {
    match v
    case Text(s) =>
      var code := Trim(s);
      if |code| >= 1 then Valid(code) else Invalid([CodeRequired])
    case Upload => Invalid(["Expected string, received object"])
    case Missing => Invalid(["Expected string, received null"])
  }

  /** `joinChat(formData)`: redirect to `/chat/<trimmed code>` when the code
      parses, otherwise return the field errors and do not redirect. */
  function JoinChat(v: FormValue): (r: JoinResult)
    ensures r.Redirect? <==> v.Text? && |Trim(v.value)| >= 1
    ensures r.Redirect? ==> r.path == ChatPathPrefix + Trim(v.value)
    ensures r.FieldErrors? ==> r.code != []
    ensures v.Text? && AllWhitespace(v.value) ==> r == FieldErrors([CodeRequired])
  {
    match ParseCode(v)
    case Valid(code) => Redirect(ChatPathPrefix + code)
    case Invalid(issues) => FieldErrors(issues)
  }

  /** Only the trimmed code matters: surrounding whitespace changes nothing,
      and submitting the already-trimmed code gives the same result. */
  lemma JoinChatDependsOnlyOnTrimmedCode(w1: string, s: string, w2: string)
    requires AllWhitespace(w1) && AllWhitespace(w2)
    ensures JoinChat(Text(w1 + s + w2)) == JoinChat(Text(s))
    ensures JoinChat(Text(Trim(s))) == JoinChat(Text(s))
  {
    TrimIgnoresPadding(w1, s, w2);
    TrimIdempotent(s);
  }

  /** A redirect target is `/chat/` followed by a non-empty code with no
      whitespace at either end, so it is longer than the prefix. */
  lemma RedirectPathShape(v: FormValue)
    requires JoinChat(v).Redirect?
    ensures var p := JoinChat(v).path;
      |p| > |ChatPathPrefix| == 6 && p[..6] == ChatPathPrefix
      && !IsWhitespace(p[6]) && !IsWhitespace(p[|p| - 1])
  {
    ChatPathShape(Trim(v.value));
  }

  lemma ChatPathShape(code: string)
    requires code != [] && !IsWhitespace(code[0]) && !IsWhitespace(code[|code| - 1])
    ensures var p := ChatPathPrefix + code;
      |p| > |ChatPathPrefix| == 6 && p[..6] == ChatPathPrefix
      && !IsWhitespace(p[6]) && !IsWhitespace(p[|p| - 1])
  {
    var p := ChatPathPrefix + code;
    assert |ChatPathPrefix| == 6;
    assert p[6] == code[0];
    assert p[|p| - 1] == code[|code| - 1];
  }

  /** Typing the code back from a redirect target lands on the same target. */
  lemma RejoinFromRedirectPath(v: FormValue)
    requires JoinChat(v).Redirect?
    ensures JoinChat(Text(JoinChat(v).path[6..])) == JoinChat(v)
  {
    var p := JoinChat(v).path;
    assert p[6..] == Trim(v.value);
    TrimIdempotent(v.value);
  }

  // ----- the action as the home page binds it -----

  /** The outcome of one call of the action: it throws, or it returns a
      result (a redirect counts as returned here). */
  datatype Invocation = Threw | Returned(result: JoinResult)

  /** The previous state `useActionState` holds: nothing before the first
      submission, then the last result the action returned. */
  datatype PreviousState = Unset | Last(result: JoinResult)

  /** A value passed to the action: form data, `undefined`, or the
      `{ error }` object a previous call returned. */
  datatype Arg = FormArg(form: FormValue) | Undefined | ErrorObject(result: JoinResult)

  /** The previous state as `useActionState` passes it on. */
  function StateArg(previous: PreviousState): (a: Arg)
    ensures !a.FormArg?
  {
    match previous
    case Unset => Undefined
    case Last(result) => ErrorObject(result)
  }

  /** The arguments `useActionState` passes to its action, in order: the
      previous state, then the submitted form. */
  function ActionArgs(previous: PreviousState, form: FormValue): (args: seq<Arg>)
    ensures |args| == 2 && args[1] == FormArg(form) && !args[0].FormArg?
  {
    [StateArg(previous), FormArg(form)]
  }

  /** `joinChat(formData)` called with any value in its one parameter: only
      form data has a `get` method, so any other value makes
      `formData.get('code')` throw before the schema runs. */
  function JoinChatOneParam(formData: Arg): (r: Invocation)
    ensures r.Returned? <==> formData.FormArg?
    ensures r.Returned? ==> (r.result.Redirect? <==> formData.form.Text? && |Trim(formData.form.value)| >= 1)
  {
    match formData
    case FormArg(form) => Returned(JoinChat(form))
    case Undefined => Threw
    case ErrorObject(_) => Threw
  }

  /** `joinChat` as the home page's form reaches it through `useActionState`:
      the action declares one parameter, so it binds the first argument, the
      previous state, and the form data is never read. */
  function JoinChatAsBound(previous: PreviousState, form: FormValue): (r: Invocation)
    ensures r.Threw?
  {
    JoinChatOneParam(ActionArgs(previous, form)[0])
  }

  /** A valid code that the action itself accepts (such as "abc", which it
      redirects to `/chat/abc`) is still lost when the form submits it
      through the binding above. */
  lemma BoundJoinLosesValidCode(previous: PreviousState, code: string)
    requires code != [] && !IsWhitespace(code[0]) && !IsWhitespace(code[|code| - 1])
    ensures JoinChat(Text(code)) == Redirect(ChatPathPrefix + code)
    ensures JoinChatAsBound(previous, Text(code)) == Threw
  {
    TrimOfTrimmed(code);
  }

  /** The action with the two-parameter signature `useActionState` expects:
      the previous state is ignored and the form data is validated as
      `JoinChat` does. */
  function JoinChatWithState(previous: PreviousState, form: FormValue): (r: Invocation)
    ensures r.Returned?
    ensures r.result.Redirect? <==> form.Text? && |Trim(form.value)| >= 1
    ensures r.result.Redirect? ==> r.result.path == ChatPathPrefix + Trim(form.value)
  {
    var args := ActionArgs(previous, form);
    JoinChatTwoParams(args[0], args[1])
  }

  /** `joinChat(prevState, formData)`: the second parameter is read as the
      form data and the first is ignored. */
  function JoinChatTwoParams(prevState: Arg, formData: Arg): Invocation
  {
    JoinChatOneParam(formData)
  }
}
