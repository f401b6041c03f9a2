/** Page generation: one language (`generateSinglePage`, src/App.tsx:849-926)
    and the driver that runs one or all three languages in turn
    (`generatePage`, src/App.tsx:928-954). The model's replies, the store's
    answers, the local id and the clock are inputs. */
module Orchestrator {
  import opened Common
  import opened JsText
  import opened Credentials
  import opened PromptComposer
  import opened Normalize
  import opened MaterialStore

  /** The fixed model settings of every generation request. */
  datatype ModelConfig = ModelConfig(model: string, systemInstruction: string)

  const AppModel: ModelConfig := ModelConfig(
    "gemini-3-flash-preview",
    "Você é um desenvolvedor front-end sênior e tradutor técnico especializado em criar páginas de destino (landing pages) de alta conversão.")

  /** A `generateContent` request: the key the client was built with, the
      model, the prompt parts and the system instruction. */
  datatype GenRequest = GenRequest(apiKey: string, model: string, parts: seq<Part>, systemInstruction: string)

  /** The remote calls a run issues, in order. */
  datatype Call = GenerateCall(request: GenRequest) | InsertCall(row: NewMaterialRow)

  /** What the model answered: its text (possibly missing), or an error. */
  datatype GenOutcome = Generated(text: Option<string>) | GenerationFailed

  /** Everything from outside one step needs: the model's answer, the store's
      answer to the insert, and the id and time a local material gets. */
  datatype StepInput = StepInput(gen: GenOutcome, insert: InsertOutcome, local: LocalStamp)

  /** The settings a generation reads. */
  datatype Ctx = Ctx(
    wording: PromptTemplate,
    model: ModelConfig,
    session: Session,
    keys: ApiKeys,
    provider: Provider,
    env: string,
    brand: BrandConfig,
    markdown: string)

  /** Why a generation stopped. */
  datatype GenError = NoCredential(provider: Provider) | GenerationError

  /** The materials after a step, the calls it issued, and its page or error. */
  datatype StepResult = StepResult(materials: seq<Material>, calls: seq<Call>, outcome: Result<string, GenError>)

  /** The request one step sends for language `l`, given the resolved credential. */
  function RequestFor(ctx: Ctx, cred: Credential, l: Lang): (req: GenRequest)
    ensures req.apiKey == cred.transport
    ensures req.parts == ComposeParts(ctx.wording, ctx.markdown, ctx.brand, l)
    ensures req.model == ctx.model.model && req.systemInstruction == ctx.model.systemInstruction
  {
    GenRequest(cred.transport, ctx.model.model, ComposeParts(ctx.wording, ctx.markdown, ctx.brand, l),
               ctx.model.systemInstruction)
  }

  /** One language. A missing credential stops before any call. Otherwise
      the request is sent; a failed reply stops there. A reply is normalised,
      recorded as a material named `name` (stored first when signed in) and
      returned. */
  function GenerateSingle(ctx: Ctx, ms: seq<Material>, l: Lang, name: string, input: StepInput)
    : (r: StepResult)
    ensures Resolve(ctx.keys, ctx.provider, ctx.env).Err? <==> r.outcome == Err(NoCredential(ctx.provider))
    ensures Resolve(ctx.keys, ctx.provider, ctx.env).Err? ==> r.calls == [] && r.materials == ms
    ensures Resolve(ctx.keys, ctx.provider, ctx.env).Ok? ==>
              && 1 <= |r.calls| <= 2
              && r.calls[0] == GenerateCall(RequestFor(ctx, Resolve(ctx.keys, ctx.provider, ctx.env).value, l))
    ensures r.outcome == Err(GenerationError) <==>
              Resolve(ctx.keys, ctx.provider, ctx.env).Ok? && input.gen.GenerationFailed?
    ensures r.outcome.Err? ==> r.materials == ms
    ensures r.outcome.Ok? <==> Resolve(ctx.keys, ctx.provider, ctx.env).Ok? && input.gen.Generated?
    ensures r.outcome.Ok? ==> r.outcome.value == NormalizeResponse(input.gen.text)
    ensures r.outcome.Ok? ==>
              r.calls[1..] == if ctx.session.SignedIn? then [InsertCall(NewMaterialRow(ctx.session.userId, name, r.outcome.value))] else []
    ensures r.outcome.Ok? ==> r.materials == Create(ms, ctx.session, name, r.outcome.value, input.insert, input.local)
  {
    match Resolve(ctx.keys, ctx.provider, ctx.env)
    case Err(e) => StepResult(ms, [], Err(NoCredential(e.provider)))
    case Ok(cred) =>
      var call := GenerateCall(RequestFor(ctx, cred, l));
      match input.gen
      case GenerationFailed => StepResult(ms, [call], Err(GenerationError))
      case Generated(text) =>
        var html := NormalizeResponse(text);
        var inserts := match CreateRequest(ctx.session, name, html)
          case None => []
          case Some(row) => [InsertCall(row)];
        StepResult(Create(ms, ctx.session, name, html, input.insert, input.local), [call] + inserts, Ok(html))
  }

  /** With the application's settings, the request a generation sends asks
      for the `gemini-3-flash-preview` model under the fixed system
      instruction, with the transport key of the resolved credential. */
  lemma {:induction false} AppRequestUsesFixedModel(ctx: Ctx, ms: seq<Material>, l: Lang, name: string,
                                                    input: StepInput)
    requires ctx.model == AppModel
    requires Resolve(ctx.keys, ctx.provider, ctx.env).Ok?
    ensures var r := GenerateSingle(ctx, ms, l, name, input);
      && |r.calls| > 0 && r.calls[0].GenerateCall?
      && r.calls[0].request.model == "gemini-3-flash-preview"
      && r.calls[0].request.systemInstruction == AppModel.systemInstruction
      && r.calls[0].request.apiKey == Resolve(ctx.keys, ctx.provider, ctx.env).value.transport
  {
  }

  /** A step that fails keeps the list; one that succeeds keeps the old list
      as the tail of the new one and adds at most one material. */
  lemma {:induction false} StepKeepsOldTail(ctx: Ctx, ms: seq<Material>, l: Lang, name: string, input: StepInput)
    ensures var r := GenerateSingle(ctx, ms, l, name, input);
      |ms| <= |r.materials| <= |ms| + 1 && r.materials[|r.materials| - |ms|..] == ms
  {
    var r := GenerateSingle(ctx, ms, l, name, input);
    if r.outcome.Ok? {
      CreateKeepsOld(ms, ctx.session, name, r.outcome.value, input.insert, input.local);
    }
  }

  /** A signed-out success, or a signed-in one whose insert was stored, puts
      a material named `name` holding the page in front. */
  lemma {:induction false} StepRecordsPage(ctx: Ctx, ms: seq<Material>, l: Lang, name: string, input: StepInput)
    requires GenerateSingle(ctx, ms, l, name, input).outcome.Ok?
    requires ctx.session.SignedOut? || input.insert.Inserted?
    ensures var r := GenerateSingle(ctx, ms, l, name, input);
      && |r.materials| == |ms| + 1 && r.materials[1..] == ms
      && (ctx.session.SignedOut? ==> r.materials[0].name == name && r.materials[0].html == r.outcome.value)
      && (ctx.session.SignedIn? ==> ToRow(r.materials[0]) == input.insert.row)
  {
  }

  /** The language choice: one language, or all three. */
  datatype LangChoice = Single(lang: Lang) | AllLangs

  /** The steps `generatePage` runs: the chosen language under the current
      file name, or pt, en, es in that order, each under `filename-<code>`. */
  function Steps(choice: LangChoice, filename: string): (steps: seq<(Lang, string)>)
    ensures choice.Single? ==> steps == [(choice.lang, filename)]
    ensures choice.AllLangs? ==> |steps| == 3
    ensures choice.AllLangs? ==> forall i :: 0 <= i < 3 ==> steps[i].1 == filename + "-" + LangCode(steps[i].0)
    ensures choice.AllLangs? ==> steps[0].0 == Pt && steps[1].0 == En && steps[2].0 == Es
  {
    match choice
    case Single(l) => [(l, filename)]
    case AllLangs => [(Pt, filename + "-pt"), (En, filename + "-en"), (Es, filename + "-es")]
  }

  /** The outcome of a run of steps: the materials, every call issued, and
      the last page (or the error that stopped the run). */
  datatype RunResult = RunResult(materials: seq<Material>, calls: seq<Call>, last: Result<string, GenError>)

  /** One step of a run: the materials so far, a language and a file name in,
      a step result out. */
  type StepFn = (seq<Material>, Lang, string) -> StepResult

  /** The step `generatePage` repeats: `GenerateSingle` with the outside
      answers `world` gives for the step's language. */
  function StepOf(ctx: Ctx, world: Lang -> StepInput): StepFn {
    (ms: seq<Material>, l: Lang, name: string) => GenerateSingle(ctx, ms, l, name, world(l))
  }

  /** Running steps in order, stopping at the first failure; `lastHtml` is
      the page of the last step that succeeded. */
  function Run(step: StepFn, ms: seq<Material>, steps: seq<(Lang, string)>, lastHtml: string): (r: RunResult)
    ensures steps == [] ==> r == RunResult(ms, [], Ok(lastHtml))
    ensures steps != [] && step(ms, steps[0].0, steps[0].1).outcome.Err? ==>
              var s := step(ms, steps[0].0, steps[0].1); r == RunResult(s.materials, s.calls, Err(s.outcome.error))
    decreases |steps|
  {
    if steps == [] then RunResult(ms, [], Ok(lastHtml))
    else
      var s := step(ms, steps[0].0, steps[0].1);
      match s.outcome
      case Err(e) => RunResult(s.materials, s.calls, Err(e))
      case Ok(html) =>
        var rest := Run(step, s.materials, steps[1..], html);
        RunResult(rest.materials, s.calls + rest.calls, rest.last)
  }

  /** A step that keeps the old list as its tail and adds at most one material. */
  ghost predicate KeepsTail(step: StepFn) {
    forall ms, l, name :: KeepsTailAt(step, ms, l, name)
  }

  /** One application of `step` keeps `ms` as the tail and adds at most one material. */
  ghost predicate KeepsTailAt(step: StepFn, ms: seq<Material>, l: Lang, name: string) {
    var r := step(ms, l, name);
    |ms| <= |r.materials| <= |ms| + 1 && r.materials[|r.materials| - |ms|..] == ms
  }

  /** Every generation step keeps the old list as its tail. */
  lemma {:induction false} GenerationKeepsTail(ctx: Ctx, world: Lang -> StepInput)
    ensures KeepsTail(StepOf(ctx, world))
  {
    forall ms, l, name ensures KeepsTailAt(StepOf(ctx, world), ms, l, name) {
      StepKeepsOldTail(ctx, ms, l, name, world(l));
    }
  }

  /** A run of such steps adds at most one material per step and keeps the
      old list as the tail. */
  lemma {:induction false} RunKeepsOldTail(step: StepFn, ms: seq<Material>, steps: seq<(Lang, string)>,
                                           lastHtml: string)
    requires KeepsTail(step)
    ensures var r := Run(step, ms, steps, lastHtml);
      |ms| <= |r.materials| <= |ms| + |steps| && r.materials[|r.materials| - |ms|..] == ms
    decreases |steps|
  {
    if steps != [] {
      var s := step(ms, steps[0].0, steps[0].1);
      StepTail(step, ms, steps[0].0, steps[0].1);
      if s.outcome.Ok? {
        var rest := Run(step, s.materials, steps[1..], s.outcome.value);
        assert Run(step, ms, steps, lastHtml).materials == rest.materials;
        RunKeepsOldTail(step, s.materials, steps[1..], s.outcome.value);
        SuffixOfSuffix(rest.materials, s.materials, ms);
      }
    }
  }

  lemma {:induction false} StepTail(step: StepFn, ms: seq<Material>, l: Lang, name: string)
    requires KeepsTail(step)
    ensures var r := step(ms, l, name);
      |ms| <= |r.materials| <= |ms| + 1 && r.materials[|r.materials| - |ms|..] == ms
  {
    assert KeepsTailAt(step, ms, l, name);
  }

  lemma {:induction false} SuffixOfSuffix(a: seq<Material>, b: seq<Material>, c: seq<Material>)
    requires |b| <= |a| && a[|a| - |b|..] == b
    requires |c| <= |b| && b[|b| - |c|..] == c
    ensures a[|a| - |c|..] == c
  {
    assert a[|a| - |c|..] == a[|a| - |b|..][|b| - |c|..];
  }

  /** Runs compose: running `a + b` is running `a` and, when that succeeds,
      running `b` from where it left off; a failure in `a` means nothing of
      `b` runs. */
  lemma {:induction false} RunSplit(step: StepFn, ms: seq<Material>, a: seq<(Lang, string)>,
                                    b: seq<(Lang, string)>, lastHtml: string)
    ensures var ra := Run(step, ms, a, lastHtml);
      ra.last.Err? ==> Run(step, ms, a + b, lastHtml) == ra
    ensures var ra := Run(step, ms, a, lastHtml);
      ra.last.Ok? ==>
        var rb := Run(step, ra.materials, b, ra.last.value);
        Run(step, ms, a + b, lastHtml) == RunResult(rb.materials, ra.calls + rb.calls, rb.last)
    decreases |a|
  {
    if a == [] {
      assert a + b == b;
    } else {
      assert (a + b)[0] == a[0];
      assert (a + b)[1..] == a[1..] + b;
      var s := step(ms, a[0].0, a[0].1);
      if s.outcome.Ok? {
        RunSplit(step, s.materials, a[1..], b, s.outcome.value);
        var ra' := Run(step, s.materials, a[1..], s.outcome.value);
        if ra'.last.Ok? {
          var rb := Run(step, ra'.materials, b, ra'.last.value);
          assert s.calls + (ra'.calls + rb.calls) == (s.calls + ra'.calls) + rb.calls;
        }
      }
    }
  }

  /** The page-level state `generatePage` changes. */
  datatype View = Branding | Keys | Converter | Editor | Preview | Materials

  datatype PageState = PageState(materials: seq<Material>, generatedHtml: string, filename: string, view: View)

  /** `generatePage`: blank markdown does nothing. Otherwise the steps run;
      on success the last page is shown in the preview and, for all three
      languages, the file name becomes `filename-es`; on failure the page,
      the file name and the view stay, but materials recorded by earlier
      steps remain. */
  function GeneratePage(ctx: Ctx, st: PageState, choice: LangChoice, world: Lang -> StepInput)
    : (r: (PageState, seq<Call>, Option<GenError>))
    ensures IsBlank(ctx.markdown) ==> r == (st, [], None)
    ensures !IsBlank(ctx.markdown) ==>
              var run := Run(StepOf(ctx, world), st.materials, Steps(choice, st.filename), "");
              && r.0.materials == run.materials && r.1 == run.calls
              && (run.last.Err? ==> r.2 == Some(run.last.error)
                                    && r.0 == st.(materials := run.materials))
              && (run.last.Ok? ==> r.2.None? && r.0.generatedHtml == run.last.value && r.0.view == Preview)
              && (run.last.Ok? && choice.Single? ==> r.0.filename == st.filename)
              && (run.last.Ok? && choice.AllLangs? ==> r.0.filename == st.filename + "-es")
  {
    if IsBlank(ctx.markdown) then (st, [], None)
    else
      var run := Run(StepOf(ctx, world), st.materials, Steps(choice, st.filename), "");
      match run.last
      case Err(e) => (st.(materials := run.materials), run.calls, Some(e))
      case Ok(html) =>
        var name := if choice.AllLangs? then st.filename + "-es" else st.filename;
        (PageState(run.materials, html, name, Preview), run.calls, None)
  }

  /** The same fold written as a loop over the steps, as `generatePage` does. */
  method RunLoop(step: StepFn, ms0: seq<Material>, steps: seq<(Lang, string)>, lastHtml: string)
    returns (r: RunResult)
    ensures r == Run(step, ms0, steps, lastHtml)
  {
    var ms, calls, html := ms0, [], lastHtml;
    var i := 0;
    while i < |steps|
      invariant 0 <= i <= |steps|
      invariant var rest := Run(step, ms, steps[i..], html);
        Run(step, ms0, steps, lastHtml) == RunResult(rest.materials, calls + rest.calls, rest.last)
      decreases |steps| - i
    {
      var s := step(ms, steps[i].0, steps[i].1);
      assert steps[i..][0] == steps[i] && steps[i..][1..] == steps[i + 1..];
      calls := calls + s.calls;
      ms := s.materials;
      if s.outcome.Err? {
        return RunResult(ms, calls, Err(s.outcome.error));
      }
      html := s.outcome.value;
      i := i + 1;
    }
    assert steps[i..] == [];
    r := RunResult(ms, calls, Ok(html));
  }

  /** The generation requests among `calls`, in order. */
  function Requests(calls: seq<Call>): (r: seq<GenRequest>)
    ensures |r| <= |calls|
  {
    if calls == [] then []
    else (if calls[0].GenerateCall? then [calls[0].request] else []) + Requests(calls[1..])
  }

  /** The names of the materials inserted by `calls`, in order. */
  function InsertNames(calls: seq<Call>): (r: seq<string>)
    ensures |r| <= |calls|
  {
    if calls == [] then []
    else (if calls[0].InsertCall? then [calls[0].row.name] else []) + InsertNames(calls[1..])
  }

  lemma {:induction false} RequestsAppend(a: seq<Call>, b: seq<Call>)
    ensures Requests(a + b) == Requests(a) + Requests(b)
    decreases |a|
  {
    if a == [] {
      assert a + b == b;
    } else {
      var head := if a[0].GenerateCall? then [a[0].request] else [];
      assert (a + b)[0] == a[0] && (a + b)[1..] == a[1..] + b;
      RequestsAppend(a[1..], b);
      assert Requests(a + b) == head + (Requests(a[1..]) + Requests(b));
    }
  }

  lemma {:induction false} InsertNamesAppend(a: seq<Call>, b: seq<Call>)
    ensures InsertNames(a + b) == InsertNames(a) + InsertNames(b)
    decreases |a|
  {
    if a == [] {
      assert a + b == b;
    } else {
      var head := if a[0].InsertCall? then [a[0].row.name] else [];
      assert (a + b)[0] == a[0] && (a + b)[1..] == a[1..] + b;
      InsertNamesAppend(a[1..], b);
      assert InsertNames(a + b) == head + (InsertNames(a[1..]) + InsertNames(b));
    }
  }

  /** A successful step sends the request for its language and, signed in,
      inserts one material under its name; a step that fails after the
      credential check sends only its request. */
  lemma {:induction false} StepCalls(ctx: Ctx, ms: seq<Material>, l: Lang, name: string, input: StepInput)
    requires Resolve(ctx.keys, ctx.provider, ctx.env).Ok?
    ensures var r, cred := GenerateSingle(ctx, ms, l, name, input), Resolve(ctx.keys, ctx.provider, ctx.env).value;
      && Requests(r.calls) == [RequestFor(ctx, cred, l)]
      && InsertNames(r.calls) == if r.outcome.Ok? && ctx.session.SignedIn? then [name] else []
  {
    var r, cred := GenerateSingle(ctx, ms, l, name, input), Resolve(ctx.keys, ctx.provider, ctx.env).value;
    var req := RequestFor(ctx, cred, l);
    var tail := r.calls[1..];
    assert r.calls == [GenerateCall(req)] + tail;
    if r.outcome.Ok? && ctx.session.SignedIn? {
      assert tail == [InsertCall(NewMaterialRow(ctx.session.userId, name, r.outcome.value))];
    } else if r.outcome.Ok? {
      assert tail == [];
    } else {
      assert |r.calls| == 1;
      assert tail == [];
    }
    RequestThenInserts(req, tail);
  }

  /** A request followed by at most one insert: one request, and the
      inserted name if there is one. */
  lemma {:induction false} RequestThenInserts(req: GenRequest, tail: seq<Call>)
    requires tail == [] || (|tail| == 1 && tail[0].InsertCall?)
    ensures Requests([GenerateCall(req)] + tail) == [req]
    ensures InsertNames([GenerateCall(req)] + tail) == if tail == [] then [] else [tail[0].row.name]
  {
    var calls := [GenerateCall(req)] + tail;
    assert calls[0] == GenerateCall(req) && calls[1..] == tail;
    if tail != [] {
      assert tail[1..] == [];
    }
  }

  /** A generation with no usable key issues no call at all, records nothing
      and reports the missing credential, whatever the language choice. */
  lemma {:induction false} MissingCredentialIssuesNoCall(ctx: Ctx, st: PageState, choice: LangChoice,
                                                         world: Lang -> StepInput)
    requires !IsBlank(ctx.markdown)
    requires Resolve(ctx.keys, ctx.provider, ctx.env).Err?
    ensures GeneratePage(ctx, st, choice, world) == (st, [], Some(NoCredential(ctx.provider)))
  {
    var steps := Steps(choice, st.filename);
    var s := GenerateSingle(ctx, st.materials, steps[0].0, steps[0].1, world(steps[0].0));
    assert StepOf(ctx, world)(st.materials, steps[0].0, steps[0].1) == s;
  }

  /** A run of one step is that step, with its error or its page. */
  lemma {:induction false} RunOne(step: StepFn, ms: seq<Material>, x: (Lang, string), lastHtml: string)
    ensures var s := step(ms, x.0, x.1);
      Run(step, ms, [x], lastHtml) == RunResult(s.materials, s.calls, s.outcome)
  {
    var s := step(ms, x.0, x.1);
    assert [x][1..] == [];
    assert s.calls + [] == s.calls;
  }

  /** One language: success means one request for that language, one insert
      under the unchanged file name when signed in, and the normalised reply
      on screen. */
  lemma {:induction false} SingleLanguageRun(ctx: Ctx, st: PageState, l: Lang, world: Lang -> StepInput)
    requires !IsBlank(ctx.markdown)
    ensures var r := GeneratePage(ctx, st, Single(l), world);
      r.2.None? <==> Resolve(ctx.keys, ctx.provider, ctx.env).Ok? && world(l).gen.Generated?
    ensures var r := GeneratePage(ctx, st, Single(l), world);
      r.2.None? ==>
        && Requests(r.1) == [RequestFor(ctx, Resolve(ctx.keys, ctx.provider, ctx.env).value, l)]
        && InsertNames(r.1) == (if ctx.session.SignedIn? then [st.filename] else [])
        && r.0.generatedHtml == NormalizeResponse(world(l).gen.text)
        && r.0.filename == st.filename
  {
    var s := GenerateSingle(ctx, st.materials, l, st.filename, world(l));
    assert StepOf(ctx, world)(st.materials, l, st.filename) == s;
    RunOne(StepOf(ctx, world), st.materials, (l, st.filename), "");
    if s.outcome.Ok? {
      StepCalls(ctx, st.materials, l, st.filename, world(l));
    }
  }

  /** A failure at step `k` keeps what the steps before it recorded, and no
      later step runs: the calls are those of the steps before `k` and of
      step `k` itself. */
  lemma {:induction false} RunStopsAtFailure(step: StepFn, ms: seq<Material>, steps: seq<(Lang, string)>,
                                             lastHtml: string, k: nat)
    requires k < |steps|
    requires Run(step, ms, steps[..k], lastHtml).last.Ok?
    requires var pre := Run(step, ms, steps[..k], lastHtml);
      step(pre.materials, steps[k].0, steps[k].1).outcome.Err?
    ensures var pre := Run(step, ms, steps[..k], lastHtml);
      var s := step(pre.materials, steps[k].0, steps[k].1);
      Run(step, ms, steps, lastHtml) == RunResult(s.materials, pre.calls + s.calls, Err(s.outcome.error))
  {
    assert steps == steps[..k] + steps[k..];
    RunSplit(step, ms, steps[..k], steps[k..], lastHtml);
    assert steps[k..][0] == steps[k];
  }

  /** A run of three steps succeeds exactly when each step does, each one
      starting from the materials the previous one left; its calls are
      theirs, in order, and its page is the third one's. */
  lemma {:induction false} RunThree(step: StepFn, ms: seq<Material>, x1: (Lang, string), x2: (Lang, string),
                                    x3: (Lang, string), lastHtml: string)
    ensures var r, s1 := Run(step, ms, [x1, x2, x3], lastHtml), step(ms, x1.0, x1.1);
      s1.outcome.Err? ==> r == RunResult(s1.materials, s1.calls, s1.outcome)
    ensures var r, s1 := Run(step, ms, [x1, x2, x3], lastHtml), step(ms, x1.0, x1.1);
      s1.outcome.Ok? ==>
        var s2 := step(s1.materials, x2.0, x2.1);
        s2.outcome.Err? ==> r == RunResult(s2.materials, s1.calls + s2.calls, s2.outcome)
    ensures var r, s1 := Run(step, ms, [x1, x2, x3], lastHtml), step(ms, x1.0, x1.1);
      s1.outcome.Ok? ==>
        var s2 := step(s1.materials, x2.0, x2.1);
        s2.outcome.Ok? ==>
          var s3 := step(s2.materials, x3.0, x3.1);
          r == RunResult(s3.materials, s1.calls + s2.calls + s3.calls, s3.outcome)
  {
    var s1 := step(ms, x1.0, x1.1);
    assert [x1, x2, x3][0] == x1 && [x1, x2, x3][1..] == [x2, x3];
    if s1.outcome.Ok? {
      var s2 := step(s1.materials, x2.0, x2.1);
      assert [x2, x3][0] == x2 && [x2, x3][1..] == [x3];
      if s2.outcome.Ok? {
        RunOne(step, s2.materials, x3, s2.outcome.value);
        var s3 := step(s2.materials, x3.0, x3.1);
        assert s1.calls + (s2.calls + s3.calls) == s1.calls + s2.calls + s3.calls;
      }
    }
  }

  /** The three steps of an all-languages run, as generation steps. */
  lemma {:induction false} AllLanguagesSteps(ctx: Ctx, world: Lang -> StepInput, ms: seq<Material>, f: string)
    ensures var r := Run(StepOf(ctx, world), ms, Steps(AllLangs, f), "");
      var s1 := GenerateSingle(ctx, ms, Pt, f + "-pt", world(Pt));
      var s2 := GenerateSingle(ctx, s1.materials, En, f + "-en", world(En));
      var s3 := GenerateSingle(ctx, s2.materials, Es, f + "-es", world(Es));
      && (s1.outcome.Err? ==> r == RunResult(s1.materials, s1.calls, s1.outcome))
      && (s1.outcome.Ok? && s2.outcome.Err? ==> r == RunResult(s2.materials, s1.calls + s2.calls, s2.outcome))
      && (s1.outcome.Ok? && s2.outcome.Ok? ==> r == RunResult(s3.materials, s1.calls + s2.calls + s3.calls, s3.outcome))
  {
    var step := StepOf(ctx, world);
    var x1, x2, x3 := (Pt, f + "-pt"), (En, f + "-en"), (Es, f + "-es");
    assert Steps(AllLangs, f) == [x1, x2, x3];
    RunThree(step, ms, x1, x2, x3, "");
    var s1 := GenerateSingle(ctx, ms, Pt, x1.1, world(Pt));
    assert step(ms, x1.0, x1.1) == s1;
    var s2 := GenerateSingle(ctx, s1.materials, En, x2.1, world(En));
    assert step(s1.materials, x2.0, x2.1) == s2;
    var s3 := GenerateSingle(ctx, s2.materials, Es, x3.1, world(Es));
    assert step(s2.materials, x3.0, x3.1) == s3;
  }

  /** The requests a run of `steps` is expected to send, one per step. */
  function RequestsOf(req: Lang -> GenRequest, steps: seq<(Lang, string)>): (r: seq<GenRequest>)
    ensures |r| == |steps| && forall i :: 0 <= i < |steps| ==> r[i] == req(steps[i].0)
  {
    if steps == [] then [] else [req(steps[0].0)] + RequestsOf(req, steps[1..])
  }

  /** The file names of `steps`, in order. */
  function NamesOf(steps: seq<(Lang, string)>): (r: seq<string>)
    ensures |r| == |steps| && forall i :: 0 <= i < |steps| ==> r[i] == steps[i].1
  {
    if steps == [] then [] else [steps[0].1] + NamesOf(steps[1..])
  }

  /** A step that, whenever it succeeds, sends exactly the request `req` gives
      for its language and, when `signedIn`, inserts exactly one material
      under its name. */
  ghost predicate SendsOneRequest(step: StepFn, req: Lang -> GenRequest, signedIn: bool) {
    forall ms, l, name :: step(ms, l, name).outcome.Ok? ==>
      && Requests(step(ms, l, name).calls) == [req(l)]
      && InsertNames(step(ms, l, name).calls) == if signedIn then [name] else []
  }

  /** The request of each language once a credential has resolved. */
  function RequestOf(ctx: Ctx, cred: Credential): Lang -> GenRequest {
    (l: Lang) => RequestFor(ctx, cred, l)
  }

  /** Generation steps send one request each, for their own language. */
  lemma {:induction false} GenerationSendsOneRequest(ctx: Ctx, world: Lang -> StepInput)
    requires Resolve(ctx.keys, ctx.provider, ctx.env).Ok?
    ensures SendsOneRequest(StepOf(ctx, world), RequestOf(ctx, Resolve(ctx.keys, ctx.provider, ctx.env).value),
                            ctx.session.SignedIn?)
  {
    var step := StepOf(ctx, world);
    var req := RequestOf(ctx, Resolve(ctx.keys, ctx.provider, ctx.env).value);
    forall ms, l, name | step(ms, l, name).outcome.Ok?
      ensures Requests(step(ms, l, name).calls) == [req(l)]
      ensures InsertNames(step(ms, l, name).calls) == if ctx.session.SignedIn? then [name] else []
    {
      StepCalls(ctx, ms, l, name, world(l));
    }
  }

  /** A successful run sends the steps' requests in step order and, signed
      in, inserts the steps' file names in step order. */
  lemma {:induction false} RunCalls(step: StepFn, req: Lang -> GenRequest, signedIn: bool, ms: seq<Material>,
                                    steps: seq<(Lang, string)>, lastHtml: string)
    requires SendsOneRequest(step, req, signedIn)
    ensures var r := Run(step, ms, steps, lastHtml);
      r.last.Ok? ==>
        && Requests(r.calls) == RequestsOf(req, steps)
        && InsertNames(r.calls) == if signedIn then NamesOf(steps) else []
    decreases |steps|
  {
    if steps != [] {
      var s := step(ms, steps[0].0, steps[0].1);
      if s.outcome.Ok? {
        RunCalls(step, req, signedIn, s.materials, steps[1..], s.outcome.value);
        var rest := Run(step, s.materials, steps[1..], s.outcome.value);
        RequestsAppend(s.calls, rest.calls);
        InsertNamesAppend(s.calls, rest.calls);
      }
    }
  }

  /** The calls of a successful all-languages run. */
  lemma {:induction false} AllLanguagesCalls(ctx: Ctx, world: Lang -> StepInput, ms: seq<Material>, f: string)
    requires Resolve(ctx.keys, ctx.provider, ctx.env).Ok?
    ensures var r, req := Run(StepOf(ctx, world), ms, Steps(AllLangs, f), ""),
                          RequestOf(ctx, Resolve(ctx.keys, ctx.provider, ctx.env).value);
      r.last.Ok? ==>
        && Requests(r.calls) == [req(Pt), req(En), req(Es)]
        && InsertNames(r.calls) == if ctx.session.SignedIn? then [f + "-pt", f + "-en", f + "-es"] else []
  {
    var req := RequestOf(ctx, Resolve(ctx.keys, ctx.provider, ctx.env).value);
    var steps := Steps(AllLangs, f);
    GenerationSendsOneRequest(ctx, world);
    RunCalls(StepOf(ctx, world), req, ctx.session.SignedIn?, ms, steps, "");
    assert RequestsOf(req, steps) == [req(Pt), req(En), req(Es)];
    assert NamesOf(steps) == [f + "-pt", f + "-en", f + "-es"];
  }

  /** All three languages: the run succeeds exactly when a key resolves and
      every language gets a reply. Then the requests go out for pt, en and
      es in that order, signed in the materials are inserted as
      `filename-pt`, `filename-en`, `filename-es`, the Spanish page is shown
      and the file name becomes `filename-es`. */
  lemma {:induction false} AllLanguagesRun(ctx: Ctx, st: PageState, world: Lang -> StepInput)
    requires !IsBlank(ctx.markdown)
    ensures var r := GeneratePage(ctx, st, AllLangs, world);
      r.2.None? <==> && Resolve(ctx.keys, ctx.provider, ctx.env).Ok?
                     && world(Pt).gen.Generated? && world(En).gen.Generated? && world(Es).gen.Generated?
    ensures var r := GeneratePage(ctx, st, AllLangs, world);
      r.2.None? ==>
        var cred := Resolve(ctx.keys, ctx.provider, ctx.env).value;
        && Requests(r.1) == [RequestFor(ctx, cred, Pt), RequestFor(ctx, cred, En), RequestFor(ctx, cred, Es)]
        && InsertNames(r.1) == (if ctx.session.SignedIn?
                                then [st.filename + "-pt", st.filename + "-en", st.filename + "-es"]
                                else [])
        && r.0.generatedHtml == NormalizeResponse(world(Es).gen.text)
        && r.0.filename == st.filename + "-es"
  {
    AllLanguagesSteps(ctx, world, st.materials, st.filename);
    if Resolve(ctx.keys, ctx.provider, ctx.env).Ok? {
      AllLanguagesCalls(ctx, world, st.materials, st.filename);
    }
  }
}
