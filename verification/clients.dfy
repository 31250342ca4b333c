/** How the two API clients interpret an HTTP response.

    The request itself (URL, headers, credential, JSON encoding) is not
    modelled: a call is its response, given as the status code, the raw body
    text and the decoded body.
 */
module Clients {
  import opened JsonPath

  const StatusOk := 200

  /** What the generator returns in place of text when the body does not have
      the expected shape. */
  const SentinelText := "Error: Formato de respuesta inesperado de Gemini"

  /** The prefixes of the two clients' status-error messages. */
  const GeneratorErrorLabel := "Error Gemini"
  const EvaluatorErrorLabel := "Error"

  /** `candidates[0].content.parts[0].text` */
  const GeneratorPath: seq<Key> :=
    [Name("candidates"), Index(0), Name("content"), Name("parts"), Index(0), Name("text")]

  /** `choices[0].message.content` */
  const EvaluatorPath: seq<Key> :=
    [Name("choices"), Index(0), Name("message"), Name("content")]

  datatype Response = Response(status: int, text: string, body: Json)

  /** An exception escaping a client: one raised by a subscript, or the
      client's own exception for a non-200 status, which carries the label,
      the status code and the raw body text. */
  datatype Failure =
    | Python(error: PyError)
    | BadStatus(prefix: string, status: int, text: string)

  /** A client call either returns a value or raises. */
  datatype Outcome = Returned(value: Json) | Raises(failure: Failure)

  /** The generator's guarded read of the body: the value at the path, the
      sentinel when a key is missing or an index out of range, or an escaping
      exception for anything else. */
  datatype Extraction = Ok(value: Json) | Sentinel | Crash(error: PyError)

  function ExtractGeneratorText(body: Json): (x: Extraction)
    // only KeyError and IndexError are caught, so only a TypeError escapes
    ensures x.Crash? ==> x.error == TypeError
    ensures x.Sentinel? <==> Walk(body, GeneratorPath) in {Raised(KeyError), Raised(IndexError)}
    ensures x.Ok? <==> Walk(body, GeneratorPath).Found?
    ensures Walk(body, GeneratorPath).Found? ==> x == Ok(Walk(body, GeneratorPath).value)
  {
    match Walk(body, GeneratorPath)
    case Found(v) => Ok(v)
    case Raised(KeyError) => Sentinel
    case Raised(IndexError) => Sentinel
    case Raised(TypeError) => Crash(TypeError)
  }

  /** `call_generator_api`, from the response onwards. */
  function CallGenerator(r: Response): (o: Outcome)
    ensures r.status != StatusOk <==> o.Raises? && o.failure.BadStatus?
    ensures o.Raises? && o.failure.BadStatus? ==>
              o.failure == BadStatus(GeneratorErrorLabel, r.status, r.text)
    ensures o == Returned(JStr(SentinelText)) <==>
              r.status == StatusOk &&
              (ExtractGeneratorText(r.body).Sentinel? || ExtractGeneratorText(r.body) == Ok(JStr(SentinelText)))
    // a found value is returned as it is; an uncaught TypeError escapes
    ensures r.status == StatusOk && ExtractGeneratorText(r.body).Ok? ==>
              o == Returned(ExtractGeneratorText(r.body).value)
    ensures r.status == StatusOk && ExtractGeneratorText(r.body).Crash? ==>
              o == Raises(Python(TypeError))
  {
    if r.status == StatusOk then
      match ExtractGeneratorText(r.body)
      case Ok(v) => Returned(v)
      case Sentinel => Returned(JStr(SentinelText))
      case Crash(e) => Raises(Python(e))
    else
      Raises(BadStatus(GeneratorErrorLabel, r.status, r.text))
  }

  /** `call_evaluator_api`, from the response onwards: the read is unguarded,
      so every failing subscript escapes. */
  function CallEvaluator(r: Response): (o: Outcome)
    ensures r.status != StatusOk <==> o.Raises? && o.failure.BadStatus?
    ensures o.Raises? && o.failure.BadStatus? ==>
              o.failure == BadStatus(EvaluatorErrorLabel, r.status, r.text)
    ensures r.status == StatusOk && Walk(r.body, EvaluatorPath).Found? ==>
              o == Returned(Walk(r.body, EvaluatorPath).value)
    ensures r.status == StatusOk && Walk(r.body, EvaluatorPath).Raised? ==>
              o == Raises(Python(Walk(r.body, EvaluatorPath).error))
  {
    if r.status == StatusOk then
      match Walk(r.body, EvaluatorPath)
      case Found(v) => Returned(v)
      case Raised(e) => Raises(Python(e))
    else
      Raises(BadStatus(EvaluatorErrorLabel, r.status, r.text))
  }

  // ----- the two response shapes, stated independently of Walk -----

  /** `body` holds `t` at `candidates[0].content.parts[0].text`, with a dict
      at every name step and a list at every index step. */
  ghost predicate HasGeneratorText(body: Json, t: Json) {
    && body.JObj? && "candidates" in body.fields
    && var cs := body.fields["candidates"];
    && cs.JArr? && |cs.items| > 0
    && var c := cs.items[0];
    && c.JObj? && "content" in c.fields
    && var content := c.fields["content"];
    && content.JObj? && "parts" in content.fields
    && var ps := content.fields["parts"];
    && ps.JArr? && |ps.items| > 0
    && var p := ps.items[0];
    && p.JObj? && "text" in p.fields
    && p.fields["text"] == t
  }

  /** `body` holds `t` at `choices[0].message.content`. */
  ghost predicate HasEvaluatorText(body: Json, t: Json) {
    && body.JObj? && "choices" in body.fields
    && var cs := body.fields["choices"];
    && cs.JArr? && |cs.items| > 0
    && var c := cs.items[0];
    && c.JObj? && "message" in c.fields
    && var msg := c.fields["message"];
    && msg.JObj? && "content" in msg.fields
    && msg.fields["content"] == t
  }

  /** Walking one step then the rest. */
  lemma WalkCons(node: Json, k: Key, rest: seq<Key>)
    ensures Walk(node, [k] + rest) ==
              if Subscript(node, k).Found? then Walk(Subscript(node, k).value, rest)
              else Subscript(node, k)
  {
    assert ([k] + rest)[1..] == rest;
  }

  /** An index step followed by a name step succeeds only on a non-empty list
      whose first element is a dict holding the name: a string would yield a
      one-character string, which rejects the name with TypeError. */
  lemma IndexThenName(node: Json, k: string, rest: seq<Key>)
    ensures Walk(node, [Index(0), Name(k)] + rest).Found? ==>
              node.JArr? && |node.items| > 0 && node.items[0].JObj? && k in node.items[0].fields
    ensures node.JArr? && |node.items| > 0 && node.items[0].JObj? && k in node.items[0].fields ==>
              Walk(node, [Index(0), Name(k)] + rest) == Walk(node.items[0].fields[k], rest)
  {
    assert [Index(0), Name(k)] + rest == [Index(0)] + ([Name(k)] + rest);
    WalkCons(node, Index(0), [Name(k)] + rest);
    match Subscript(node, Index(0))
    case Found(child) =>
      WalkCons(child, Name(k), rest);
    case Raised(_) =>
  }

  /** The generator returns text `t` exactly when the body has the documented
      shape with `t` at its end (given status 200). */
  lemma {:induction false} GeneratorTextExactlyWhenShaped(body: Json, t: Json)
    ensures ExtractGeneratorText(body) == Ok(t) <==> HasGeneratorText(body, t)
  {
    var tail4 := [Name("parts"), Index(0), Name("text")];
    assert GeneratorPath == [Name("candidates")] + ([Index(0), Name("content")] + tail4);
    WalkCons(body, Name("candidates"), [Index(0), Name("content")] + tail4);
    if body.JObj? && "candidates" in body.fields {
      var cs := body.fields["candidates"];
      IndexThenName(cs, "content", tail4);
      if cs.JArr? && |cs.items| > 0 && cs.items[0].JObj? && "content" in cs.items[0].fields {
        var content := cs.items[0].fields["content"];
        assert tail4 == [Name("parts")] + ([Index(0), Name("text")] + []);
        WalkCons(content, Name("parts"), [Index(0), Name("text")] + []);
        if content.JObj? && "parts" in content.fields {
          var ps := content.fields["parts"];
          IndexThenName(ps, "text", []);
        }
      }
    }
  }

  /** The evaluator returns `t` exactly when the body has the documented shape
      with `t` at its end (given status 200); otherwise it raises. */
  lemma {:induction false} EvaluatorTextExactlyWhenShaped(body: Json, t: Json)
    ensures Walk(body, EvaluatorPath) == Found(t) <==> HasEvaluatorText(body, t)
  {
    assert EvaluatorPath == [Name("choices")] + ([Index(0), Name("message")] + [Name("content")]);
    WalkCons(body, Name("choices"), [Index(0), Name("message")] + [Name("content")]);
    if body.JObj? && "choices" in body.fields {
      var cs := body.fields["choices"];
      IndexThenName(cs, "message", [Name("content")]);
      if cs.JArr? && |cs.items| > 0 && cs.items[0].JObj? && "message" in cs.items[0].fields {
        var msg := cs.items[0].fields["message"];
        WalkCons(msg, Name("content"), []);
        assert [Name("content")] + [] == [Name("content")];
      }
    }
  }

  /** On a 200 response the evaluator never substitutes a sentinel: either the
      documented path is there and its value is returned, or it raises. */
  lemma EvaluatorHasNoSentinel(r: Response)
    requires r.status == StatusOk
    ensures CallEvaluator(r).Returned? <==> exists t :: HasEvaluatorText(r.body, t)
    ensures forall t :: HasEvaluatorText(r.body, t) ==> CallEvaluator(r) == Returned(t)
  {
    forall t | HasEvaluatorText(r.body, t)
      ensures CallEvaluator(r) == Returned(t)
    {
      EvaluatorTextExactlyWhenShaped(r.body, t);
    }
    if CallEvaluator(r).Returned? {
      EvaluatorTextExactlyWhenShaped(r.body, CallEvaluator(r).value);
    }
  }

  /** On status 200, the generator returns `t` exactly when the body has the
      documented shape with `t` at its end. */
  lemma GeneratorReturnsShapedText(r: Response)
    requires r.status == StatusOk
    ensures forall t :: HasGeneratorText(r.body, t) ==> CallGenerator(r) == Returned(t)
    ensures forall t :: CallGenerator(r) == Returned(t) && t != JStr(SentinelText) ==>
              HasGeneratorText(r.body, t)
  {
    forall t | HasGeneratorText(r.body, t)
      ensures CallGenerator(r) == Returned(t)
    {
      GeneratorTextExactlyWhenShaped(r.body, t);
    }
    if CallGenerator(r).Returned? {
      GeneratorTextExactlyWhenShaped(r.body, CallGenerator(r).value);
    }
  }

  /** A body without `candidates` at the top level degrades to the sentinel,
      and the generator returns it as if it were text. */
  lemma MissingCandidatesGivesSentinel(r: Response)
    requires r.status == StatusOk
    requires r.body.JObj? && "candidates" !in r.body.fields
    ensures CallGenerator(r) == Returned(JStr(SentinelText))
  {
    WalkCons(r.body, Name("candidates"), GeneratorPath[1..]);
    assert GeneratorPath == [Name("candidates")] + GeneratorPath[1..];
  }

  /** An empty `candidates` list also degrades to the sentinel. */
  lemma NoCandidatesGivesSentinel(r: Response)
    requires r.status == StatusOk
    requires r.body.JObj? && "candidates" in r.body.fields && r.body.fields["candidates"] == JArr([])
    ensures CallGenerator(r) == Returned(JStr(SentinelText))
  {
    assert GeneratorPath == [Name("candidates")] + ([Index(0)] + GeneratorPath[2..]);
    WalkCons(r.body, Name("candidates"), [Index(0)] + GeneratorPath[2..]);
    WalkCons(JArr([]), Index(0), GeneratorPath[2..]);
  }

  /** Two wrong-typed `candidates` that still degrade to the sentinel: a dict
      (the integer 0 is never one of its keys, so `[0]` raises KeyError) and
      an empty string (`[0]` raises IndexError). */
  lemma CaughtWrongTypesGiveSentinel(r: Response)
    requires r.status == StatusOk
    requires r.body.JObj? && "candidates" in r.body.fields
    requires r.body.fields["candidates"].JObj? || r.body.fields["candidates"] == JStr("")
    ensures CallGenerator(r) == Returned(JStr(SentinelText))
  {
    var rest := GeneratorPath[2..];
    assert GeneratorPath == [Name("candidates")] + ([Index(0)] + rest);
    WalkCons(r.body, Name("candidates"), [Index(0)] + rest);
    WalkCons(r.body.fields["candidates"], Index(0), rest);
  }

  /** A wrong-typed node is not caught: a body that is a list, or whose
      `candidates` is a non-empty string (indexing it yields a one-character
      string, which rejects `["content"]`), makes the generator raise
      TypeError. An empty string fails its `[0]` with IndexError instead. */
  lemma WrongTypeEscapesGenerator(r: Response)
    requires r.status == StatusOk
    requires r.body.JArr? ||
             (r.body.JObj? && "candidates" in r.body.fields
              && r.body.fields["candidates"].JStr? && |r.body.fields["candidates"].s| > 0)
    ensures CallGenerator(r) == Raises(Python(TypeError))
  {
    var rest := GeneratorPath[3..];
    assert GeneratorPath == [Name("candidates")] + ([Index(0)] + ([Name("content")] + rest));
    WalkCons(r.body, Name("candidates"), [Index(0)] + ([Name("content")] + rest));
    if r.body.JObj? {
      var cs := r.body.fields["candidates"];
      WalkCons(cs, Index(0), [Name("content")] + rest);
      WalkCons(JStr([cs.s[0]]), Name("content"), rest);
    }
  }

  /** The sentinel is indistinguishable from a legitimate answer that happens
      to have the same text. */
  lemma SentinelIsAmbiguous(good: Response, bad: Response)
    requires good.status == StatusOk && HasGeneratorText(good.body, JStr(SentinelText))
    requires bad.status == StatusOk && bad.body == JObj(map[])
    ensures CallGenerator(good) == CallGenerator(bad)
  {
    GeneratorTextExactlyWhenShaped(good.body, JStr(SentinelText));
    MissingCandidatesGivesSentinel(bad);
  }
}
