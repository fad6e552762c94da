/** `POST /api/generate-intelligence`: guard checks, the user message, one
    call to the chat-completion provider and a JSON parse of its answer.
    The provider call and `JSON.parse` are parameters; the route changes no
    stored state. */
module GenerateIntelligence {
  import opened Js
  import opened Text

  /** The value of `propertyText` in the parsed body: `Other` is any
      non-string JSON value (number, boolean, object, array), with its
      truthiness. */
  datatype JsValue = Undefined | Null | Str(s: string) | Other(truthy: bool)

  /** The request body: JSON that does not parse throws. */
  datatype Request = Unparseable(error: Thrown) | Parsed(propertyText: JsValue)

  /** What the provider call gives: the error it threw, or
      `completion.choices[0]?.message?.content`. */
  datatype Completion = Threw(error: Thrown) | Answered(content: Option<string>)

  /** A 200 response carrying the parsed pack, or an error status with
      `{ error: message }`. */
  datatype Response<J> = Pack(pack: J) | Failed(status: int, message: string)

  /** The response together with the user messages sent to the provider,
      in order. */
  datatype Outcome<J> = Outcome(response: Response<J>, prompts: seq<string>)

  const MissingKey := "Server is missing OPENAI_API_KEY"
  const TextRequired := "propertyText is required"
  const NoContent := "No content returned from OpenAI"
  const GenericFailure := "Failed to generate intelligence pack (check server logs)"
  const PromptHeader := "Property details from the agent:"

  /** The template literal around `propertyText`. */
  function Template(propertyText: string): string {
    "\n" + PromptHeader + "\n\n" + propertyText + "\n"
  }

  /** The user message, the template trimmed: the header, a blank line and
      `propertyText` without its trailing whitespace. Leading whitespace of
      `propertyText` is kept, and a blank `propertyText` leaves only the
      header. */
  function UserPrompt(propertyText: string): (r: string)
    ensures var body := TrimEnd(propertyText);
      r == if body == "" then PromptHeader else PromptHeader + "\n\n" + body
  {
    TemplateShape(propertyText);
    Trim(Template(propertyText))
  }

  /** `!propertyText || typeof propertyText !== "string"` fails. */
  predicate IsPropertyText(v: JsValue) {
    v.Str? && v.s != ""
  }

  /** The `catch` block's `error?.message ?? fallback`. */
  function CaughtMessage(t: Thrown): string {
    t.message.GetOr(GenericFailure)
  }

  /** The route. `apiKey` is `process.env.OPENAI_API_KEY`, `complete` the
      provider call on the user message, `parse` is `JSON.parse`. */
  function Generate<J>(apiKey: Option<string>, request: Request,
                       complete: string -> Completion,
                       parse: string -> Result<J, Thrown>): (out: Outcome<J>)
    ensures !Truthy(apiKey) ==> out == Outcome(Failed(500, MissingKey), [])
    ensures out.response.Failed? ==> out.response.status in {400, 500}
    ensures out.response.Failed? && out.response.status == 400 <==>
      Truthy(apiKey) && request.Parsed? && !IsPropertyText(request.propertyText)
    ensures out.response.Failed? && out.response.status == 400 ==> out.response.message == TextRequired
    ensures |out.prompts| <= 1
    ensures out.prompts != [] <==> Truthy(apiKey) && request.Parsed? && IsPropertyText(request.propertyText)
    ensures out.prompts != [] ==> out.prompts == [UserPrompt(request.propertyText.s)]
    ensures out.response.Pack? <==>
      && out.prompts != []
      && var c := complete(out.prompts[0]);
         c.Answered? && Truthy(c.content) && parse(c.content.value).Returns?
    ensures out.response.Pack? ==>
      out.response.pack == parse(complete(out.prompts[0]).content.value).value
    ensures out.prompts != [] && complete(out.prompts[0]).Answered? && !Truthy(complete(out.prompts[0]).content) ==>
      out.response == Failed(500, NoContent)
  {
    if !Truthy(apiKey) then
      Outcome(Failed(500, MissingKey), [])
    else if request.Unparseable? then
      Outcome(Failed(500, CaughtMessage(request.error)), [])
    else if !IsPropertyText(request.propertyText) then
      Outcome(Failed(400, TextRequired), [])
    else
      var prompt := UserPrompt(request.propertyText.s);
      var response :=
        match complete(prompt)
        case Threw(e) => Failed(500, CaughtMessage(e))
        case Answered(content) =>
          if !Truthy(content) then Failed(500, NoContent)
          else
            match parse(content.value)
            case Throws(e) => Failed(500, CaughtMessage(e))
            case Returns(pack) => Pack(pack);
      Outcome(response, [prompt])
  }

  lemma HeaderTrimmed()
    ensures PromptHeader != "" && !IsSpace(PromptHeader[0]) && Trimmed(PromptHeader)
  {
  }

  lemma AllSpaceConcat(a: string, b: string)
    requires AllSpace(a) && AllSpace(b)
    ensures AllSpace(a + b)
  {
    forall k | 0 <= k < |a + b| ensures IsSpace((a + b)[k]) {
      if k >= |a| { assert (a + b)[k] == b[k - |a|]; }
    }
  }

  /** A blank `propertyText` leaves only the header. */
  lemma TemplateBlank(p: string)
    requires AllSpace(p)
    ensures Trim(Template(p)) == PromptHeader
  {
    assert AllSpace("\n") && AllSpace("\n\n");
    AllSpaceConcat("\n\n", p);
    AllSpaceConcat("\n\n" + p, "\n");
    HeaderTrimmed();
    assert Template(p) == "\n" + PromptHeader + ("\n\n" + p + "\n");
    TrimAround("\n", PromptHeader, "\n\n" + p + "\n");
  }

  /** Text `q` followed by whitespace `t` keeps `q` after the header. */
  lemma TemplateText(q: string, t: string)
    requires q != "" && !IsSpace(q[|q| - 1]) && AllSpace(t)
    ensures Trim(Template(q + t)) == PromptHeader + "\n\n" + q
  {
    var x := PromptHeader + "\n\n" + q;
    HeaderTrimmed();
    assert x[0] == PromptHeader[0] && x[|x| - 1] == q[|q| - 1];
    assert AllSpace("\n");
    AllSpaceConcat(t, "\n");
    assert Template(q + t) == "\n" + x + (t + "\n");
    TrimAround("\n", x, t + "\n");
  }

  /** The trimmed template, by cases on what trailing whitespace leaves of
      `propertyText`. */
  lemma TemplateShape(propertyText: string)
    ensures var body := TrimEnd(propertyText);
      Trim(Template(propertyText)) == if body == "" then PromptHeader else PromptHeader + "\n\n" + body
  {
    var q := TrimEnd(propertyText);
    var t := propertyText[|q|..];
    assert propertyText == q + t;
    if q == "" {
      assert propertyText == t;
      TemplateBlank(propertyText);
    } else {
      TemplateText(q, t);
    }
  }

  /** A whitespace-only `propertyText` passes the server's check and sends
      the bare header to the provider. */
  lemma BlankTextReachesProvider<J>(apiKey: Option<string>, propertyText: string,
                                    complete: string -> Completion, parse: string -> Result<J, Thrown>)
    requires Truthy(apiKey) && propertyText != "" && AllSpace(propertyText)
    ensures Generate(apiKey, Parsed(Str(propertyText)), complete, parse).prompts == [PromptHeader]
  {
    TrimEndAt(propertyText, 0);
  }
}
