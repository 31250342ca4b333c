/** The `chatbot` loop: one step per input line over the conversation memory,
    with the two client calls given as their responses.

    A line is first compared, lowercased, against the exit and clear commands.
    Any other line is a question: it is recorded as a user entry, sent to the
    generator, the generator's answer is sent to the evaluator, and the
    evaluator's answer is recorded as an assistant entry. Neither call is
    guarded, so an exception from either ends the loop with the user entry
    already recorded and no assistant entry.
 */
module Chat {
  import opened JsonPath
  import opened Memory
  import opened Clients

  const GeneratorTemplate := "Genera una respuesta detallada para: "
  const EvaluatorTemplate := "Evalúa esta respuesta y implementa mejoras/optimizaciones: "

  const ExitCommands: seq<string> := ["salir", "exit"]
  const ClearCommands: seq<string> := ["limpiar", "clear", "reset"]

  // ----- case-insensitive command recognition -----

  predicate IsAsciiUpper(c: char) {
    'A' <= c <= 'Z'
  }

  function LowerChar(c: char): char {
    if IsAsciiUpper(c) then (c as int + 32) as char else c
  }

  /** `str.lower()`, restricted to ASCII letters. */
  function Lower(s: string): (r: string)
    ensures |r| == |s|
    ensures forall i :: 0 <= i < |s| ==> r[i] == LowerChar(s[i])
    decreases |s|
  {
    if |s| == 0 then "" else [LowerChar(s[0])] + Lower(s[1..])
  }

  /** `a` and `b` spell the same word up to ASCII case. */
  predicate SameUpToCase(a: string, b: string) {
    |a| == |b| && forall i :: 0 <= i < |a| ==> LowerChar(a[i]) == LowerChar(b[i])
  }

  /** Lowercasing is idempotent and leaves a word without capitals alone. */
  lemma LowerIsIdempotent(s: string)
    ensures Lower(Lower(s)) == Lower(s)
    ensures (forall i :: 0 <= i < |s| ==> !IsAsciiUpper(s[i])) ==> Lower(s) == s
  {
    assert forall i :: 0 <= i < |s| ==> Lower(Lower(s))[i] == Lower(s)[i];
  }

  /** A line lowercases to a lowercase word exactly when it spells that word
      in any mix of case. */
  lemma LowerMatchesExactlyUpToCase(line: string, w: string)
    requires forall i :: 0 <= i < |w| ==> !IsAsciiUpper(w[i])
    ensures Lower(line) == w <==> SameUpToCase(line, w)
  {
    LowerIsIdempotent(w);
    if SameUpToCase(line, w) {
      assert forall i :: 0 <= i < |w| ==> Lower(line)[i] == w[i];
    }
  }

  datatype Command = Exit | Clear | Ask

  function Classify(line: string): Command {
    var l := Lower(line);
    if l in ExitCommands then Exit
    else if l in ClearCommands then Clear
    else Ask
  }

  /** The commands are recognised in any mix of case, and nothing else is a
      command: no trimming, no prefixes. */
  lemma {:induction false} ClassifyIgnoresCase(line: string)
    ensures Classify(line) == Exit <==> SameUpToCase(line, "salir") || SameUpToCase(line, "exit")
    ensures Classify(line) == Clear <==>
              SameUpToCase(line, "limpiar") || SameUpToCase(line, "clear") || SameUpToCase(line, "reset")
  {
    LowerMatchesExactlyUpToCase(line, "salir");
    LowerMatchesExactlyUpToCase(line, "exit");
    LowerMatchesExactlyUpToCase(line, "limpiar");
    LowerMatchesExactlyUpToCase(line, "clear");
    LowerMatchesExactlyUpToCase(line, "reset");
  }

  // ----- prompts and the record of client calls -----

  /** The f-string `f"{template}{arg}"` before rendering. */
  datatype Prompt = Prompt(template: string, arg: Json) {
    /** The rendered prompt when the interpolated value is a string. */
    function Text(): string
      requires arg.JStr?
    {
      template + arg.s
    }
  }

  function GeneratorPrompt(line: string): Prompt {
    Prompt(GeneratorTemplate, JStr(line))
  }

  function EvaluatorPrompt(initial: Json): Prompt {
    Prompt(EvaluatorTemplate, initial)
  }

  datatype ClientCall = GeneratorCall(prompt: Prompt) | EvaluatorCall(prompt: Prompt)

  // ----- one iteration of the loop -----

  /** What the loop does next: read another line, leave by `break`, or leave
      because an exception escaped. */
  datatype Status = Continue | Stop | Abort(failure: Failure)

  /** One input line, with the responses the two endpoints give if called.
      The line is the string the input prompt returned; how that prompt reads
      and edits keystrokes is not part of this model, so any trimming it does
      happens before `line`. */
  datatype Exchange = Exchange(line: string, generator: Response, evaluator: Response)

  datatype TurnResult = TurnResult(memory: ChatMemory, status: Status, calls: seq<ClientCall>)

  function UserEntry(line: string): Message {
    Message(UserRole, JStr(line))
  }

  function AssistantEntry(answer: Json): Message {
    Message(AssistantRole, answer)
  }

  function Step(m: ChatMemory, x: Exchange): (t: TurnResult)
    // an exit command ends the loop and touches nothing
    ensures Classify(x.line) == Exit <==> t.status.Stop?
    ensures t.status.Stop? ==> t.memory == m && t.calls == []
    // a clear command empties the memory and calls no client
    ensures Classify(x.line) == Clear ==>
              t.memory.history == [] && t.status == Continue && t.calls == []
    // any other line is recorded first and goes to the generator first
    ensures Classify(x.line) == Ask ==>
              && |t.memory.history| > |m.history|
              && t.memory.history[..|m.history| + 1] == m.history + [UserEntry(x.line)]
              && 0 < |t.calls| <= 2
              && t.calls[0] == GeneratorCall(GeneratorPrompt(x.line))
    // an escaping exception leaves the user entry as the last one
    ensures t.status.Abort? ==> t.memory.history == m.history + [UserEntry(x.line)]
    // a completed question adds exactly one assistant entry after the user entry
    ensures Classify(x.line) == Ask && t.status.Continue? ==>
              && |t.memory.history| == |m.history| + 2
              && t.memory.history[|m.history| + 1].role == AssistantRole
              && |t.calls| == 2
  {
    match Classify(x.line)
    case Exit => TurnResult(m, Stop, [])
    case Clear => TurnResult(m.ClearHistory(), Continue, [])
    case Ask =>
      var asked := m.AddMessage(UserRole, JStr(x.line));
      var first := GeneratorCall(GeneratorPrompt(x.line));
      match CallGenerator(x.generator)
      case Raises(f) => TurnResult(asked, Abort(f), [first])
      case Returned(initial) =>
        var second := EvaluatorCall(EvaluatorPrompt(initial));
        match CallEvaluator(x.evaluator)
        case Raises(f) => TurnResult(asked, Abort(f), [first, second])
        case Returned(improved) =>
          TurnResult(asked.AddMessage(AssistantRole, improved), Continue, [first, second])
  }

  /** A question whose two calls both return: the user entry and then the
      evaluator's answer are appended, and the evaluator was asked about the
      generator's answer. */
  lemma TurnSucceeds(m: ChatMemory, x: Exchange, initial: Json, improved: Json)
    requires Classify(x.line) == Ask
    requires CallGenerator(x.generator) == Returned(initial)
    requires CallEvaluator(x.evaluator) == Returned(improved)
    ensures Step(m, x).memory.history == m.history + [UserEntry(x.line), AssistantEntry(improved)]
    ensures Step(m, x).status == Continue
    ensures Step(m, x).calls ==
              [GeneratorCall(Prompt(GeneratorTemplate, JStr(x.line))),
               EvaluatorCall(Prompt(EvaluatorTemplate, initial))]
    ensures Step(m, x).calls[0].prompt.Text() == GeneratorTemplate + x.line
    ensures initial.JStr? ==> Step(m, x).calls[1].prompt.Text() == EvaluatorTemplate + initial.s
  {
  }

  /** A generator exception: the evaluator is never called, only the user
      entry is recorded, and the loop ends with that exception. */
  lemma TurnGeneratorRaises(m: ChatMemory, x: Exchange, f: Failure)
    requires Classify(x.line) == Ask
    requires CallGenerator(x.generator) == Raises(f)
    ensures Step(m, x) ==
              TurnResult(ChatMemory(m.history + [UserEntry(x.line)]), Abort(f),
                         [GeneratorCall(GeneratorPrompt(x.line))])
  {
  }

  /** An evaluator exception: there is no fallback to the generator's answer;
      only the user entry is recorded and the loop ends with that exception. */
  lemma TurnEvaluatorRaises(m: ChatMemory, x: Exchange, initial: Json, f: Failure)
    requires Classify(x.line) == Ask
    requires CallGenerator(x.generator) == Returned(initial)
    requires CallEvaluator(x.evaluator) == Raises(f)
    ensures Step(m, x) ==
              TurnResult(ChatMemory(m.history + [UserEntry(x.line)]), Abort(f),
                         [GeneratorCall(GeneratorPrompt(x.line)), EvaluatorCall(EvaluatorPrompt(initial))])
  {
  }

  /** A non-200 status from either endpoint aborts the loop with an exception
      carrying that status and body, and no assistant entry is recorded. */
  lemma BadStatusAborts(m: ChatMemory, x: Exchange)
    requires Classify(x.line) == Ask
    requires x.generator.status != StatusOk ||
             (CallGenerator(x.generator).Returned? && x.evaluator.status != StatusOk)
    ensures Step(m, x).status ==
              if x.generator.status != StatusOk
              then Abort(BadStatus(GeneratorErrorLabel, x.generator.status, x.generator.text))
              else Abort(BadStatus(EvaluatorErrorLabel, x.evaluator.status, x.evaluator.text))
    ensures forall e :: e in Step(m, x).memory.history[|m.history|..] ==> e.role == UserRole
  {
    var h := Step(m, x).memory.history;
    assert h[|m.history|..] == [UserEntry(x.line)];
  }

  /** A malformed generator body does not stop the turn: the sentinel goes to
      the evaluator as if it were the generator's answer. */
  lemma SentinelFlowsIntoEvaluator(m: ChatMemory, x: Exchange)
    requires Classify(x.line) == Ask
    requires x.generator.status == StatusOk
    requires x.generator.body.JObj? && "candidates" !in x.generator.body.fields
    ensures |Step(m, x).calls| == 2
    ensures Step(m, x).calls[1] == EvaluatorCall(Prompt(EvaluatorTemplate, JStr(SentinelText)))
    ensures Step(m, x).calls[1].prompt.Text() == EvaluatorTemplate + SentinelText
  {
    MissingCandidatesGivesSentinel(x.generator);
  }

  // ----- the conversation invariant -----

  /** Entries go user, assistant, user, assistant, ... */
  predicate Alternating(h: seq<Message>) {
    && |h| % 2 == 0
    && forall i :: 0 <= i < |h| ==> h[i].role == (if i % 2 == 0 then UserRole else AssistantRole)
  }

  /** What holds of the memory after a step taken from an alternating memory:
      still alternating, or alternating but for one trailing user entry when
      the step aborted. */
  predicate SettledAfter(h: seq<Message>, s: Status) {
    if s.Abort? then |h| > 0 && Alternating(h[..|h| - 1]) && h[|h| - 1].role == UserRole
    else Alternating(h)
  }

  /** A question and its answer, appended together, keep the alternation. */
  lemma AlternatingExtend(h: seq<Message>, u: Message, a: Message)
    requires Alternating(h) && u.role == UserRole && a.role == AssistantRole
    ensures Alternating(h + [u, a])
  {
    var h' := h + [u, a];
    forall i | 0 <= i < |h'|
      ensures h'[i].role == (if i % 2 == 0 then UserRole else AssistantRole)
    {
      if i < |h| {
        assert h'[i] == h[i];
      }
    }
  }

  lemma StepKeepsAlternation(m: ChatMemory, x: Exchange)
    requires Alternating(m.history)
    ensures SettledAfter(Step(m, x).memory.history, Step(m, x).status)
  {
    if Classify(x.line) == Ask {
      var u := UserEntry(x.line);
      match CallGenerator(x.generator)
      case Raises(f) =>
        TurnGeneratorRaises(m, x, f);
        assert (m.history + [u])[..|m.history|] == m.history;
      case Returned(initial) =>
        match CallEvaluator(x.evaluator)
        case Raises(f) =>
          TurnEvaluatorRaises(m, x, initial, f);
          assert (m.history + [u])[..|m.history|] == m.history;
        case Returned(improved) =>
          TurnSucceeds(m, x, initial, improved);
          AlternatingExtend(m.history, u, AssistantEntry(improved));
    }
  }

  // ----- the whole loop -----

  /** Where the loop stands after reading some lines: the memory, why it
      stopped (Continue when the input ran out), and how many lines it read. */
  datatype Session = Session(memory: ChatMemory, status: Status, consumed: nat)

  /** The loop over a finite sequence of lines, as a reference definition. */
  function Run(m: ChatMemory, xs: seq<Exchange>): (s: Session)
    ensures s.consumed <= |xs|
    ensures s.status.Continue? ==> s.consumed == |xs|
    // the loop leaves at the line that asked it to, or at the one that raised
    ensures !s.status.Continue? ==> 0 < s.consumed
    ensures s.status.Stop? ==> Classify(xs[s.consumed - 1].line) == Exit
    ensures s.status.Abort? ==> Classify(xs[s.consumed - 1].line) == Ask
    decreases |xs|
  {
    if |xs| == 0 then Session(m, Continue, 0)
    else
      var t := Step(m, xs[0]);
      if t.status.Continue? then
        var s := Run(t.memory, xs[1..]);
        Session(s.memory, s.status, s.consumed + 1)
      else
        Session(t.memory, t.status, 1)
  }

  /** The loop never ends mid-turn in a state other than the one a single
      aborted turn leaves: from an alternating memory, every session ends
      alternating, or alternating plus one unanswered user entry. */
  lemma {:induction false} RunKeepsAlternation(m: ChatMemory, xs: seq<Exchange>)
    requires Alternating(m.history)
    ensures SettledAfter(Run(m, xs).memory.history, Run(m, xs).status)
    decreases |xs|
  {
    if |xs| > 0 {
      var t := Step(m, xs[0]);
      StepKeepsAlternation(m, xs[0]);
      if t.status.Continue? {
        RunKeepsAlternation(t.memory, xs[1..]);
      }
    }
  }

  /** Every line the loop read and went past was handled to the end: it was
      not an exit command, and if it was a question, both client calls
      returned. */
  lemma {:induction false} RunReadsUntilExitOrFailure(m: ChatMemory, xs: seq<Exchange>, k: nat)
    requires k + 1 < Run(m, xs).consumed || (k < Run(m, xs).consumed && Run(m, xs).status.Continue?)
    ensures Classify(xs[k].line) != Exit
    ensures Classify(xs[k].line) == Ask ==>
              CallGenerator(xs[k].generator).Returned? && CallEvaluator(xs[k].evaluator).Returned?
    decreases |xs|
  {
    var t := Step(m, xs[0]);
    if k > 0 {
      RunReadsUntilExitOrFailure(t.memory, xs[1..], k - 1);
    }
  }

  function Shift(s: Session, k: nat): Session {
    Session(s.memory, s.status, s.consumed + k)
  }

  /** `chatbot`: starts from an empty memory and handles one line per
      iteration until a line stops it, an exception escapes, or the input runs
      out. */
  method Chatbot(xs: seq<Exchange>) returns (memory: ChatMemory, status: Status, consumed: nat)
    ensures Session(memory, status, consumed) == Run(ChatMemory.New(), xs)
    ensures SettledAfter(memory.history, status)
  {
    memory := ChatMemory.New();
    status := Continue;
    consumed := 0;
    while consumed < |xs| && status.Continue?
      invariant consumed <= |xs|
      invariant status.Continue? ==> Shift(Run(memory, xs[consumed..]), consumed) == Run(ChatMemory.New(), xs)
      invariant !status.Continue? ==> Session(memory, status, consumed) == Run(ChatMemory.New(), xs)
      decreases |xs| - consumed
    {
      assert xs[consumed..][0] == xs[consumed];
      assert xs[consumed..][1..] == xs[consumed + 1..];
      var t := Step(memory, xs[consumed]);
      memory, status, consumed := t.memory, t.status, consumed + 1;
    }
    RunKeepsAlternation(ChatMemory.New(), xs);
  }

  // ----- worked scenarios -----

  /** "hola": the generator answers, the evaluator improves it, and the memory
      holds the question and the improved answer. */
  lemma HolaScenario(x: Exchange)
    requires x.line == "hola"
    requires CallGenerator(x.generator) == Returned(JStr("Hola, ¿cómo estás?"))
    requires CallEvaluator(x.evaluator) == Returned(JStr("¡Hola! ¿Cómo estás hoy?"))
    ensures Step(ChatMemory.New(), x).memory.history ==
              [Message("user", JStr("hola")), Message("assistant", JStr("¡Hola! ¿Cómo estás hoy?"))]
    ensures Step(ChatMemory.New(), x).calls[1].prompt.Text() == EvaluatorTemplate + "Hola, ¿cómo estás?"
  {
    assert Classify("hola") == Ask by {
      ClassifyIgnoresCase("hola");
      assert LowerChar("hola"[0]) != LowerChar("exit"[0]);
    }
    TurnSucceeds(ChatMemory.New(), x, JStr("Hola, ¿cómo estás?"), JStr("¡Hola! ¿Cómo estás hoy?"));
  }

  /** "RESET" on a memory of four entries empties it without calling a client. */
  lemma ResetScenario(m: ChatMemory, x: Exchange)
    requires |m.history| == 4
    requires x.line == "RESET"
    ensures Step(m, x) == TurnResult(ChatMemory([]), Continue, [])
  {
    ClassifyIgnoresCase(x.line);
    assert SameUpToCase("RESET", "reset");
  }

  /** "Salir" ends the loop without recording anything or calling a client. */
  lemma SalirScenario(m: ChatMemory, x: Exchange)
    requires x.line == "Salir"
    ensures Step(m, x) == TurnResult(m, Stop, [])
  {
    ClassifyIgnoresCase(x.line);
    assert SameUpToCase("Salir", "salir");
  }
}
