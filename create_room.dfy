/** The logic of src/app/create-room/page.tsx: the form schema as a
    predicate with its messages, the default values, the theme checkbox
    toggle, and the submit sequence around the question generator. The
    generator's answer is a parameter: a question list, or a failure. */
module CreateRoom {
  import opened QuizTypes
  import opened QuizContext

  /** The raw form values. */
  datatype FormValues = FormValues(
    level: string,
    themes: seq<string>,
    quantityQuestions: int,
    timerMinutes: int)

  /** The form's `defaultValues`. */
  const DefaultValues := FormValues("fácil", [], 3, 1)

  /** The label a level field must hold, read as a level. */
  function ParseLevel(name: string): (r: Option<Level>)
    ensures r.Some? <==> name == "fácil" || name == "médio" || name == "difícil"
    ensures r.Some? ==> LevelName(r.value) == name
  {
    if name == "fácil" then Some(Easy)
    else if name == "médio" then Some(Medium)
    else if name == "difícil" then Some(Hard)
    else None
  }

  /** The four rules of the schema. An accepted level reads back as its
      label, and accepted counts are natural numbers. */
  function SchemaAccepts(v: FormValues): (r: bool)
    ensures r ==> ParseLevel(v.level).Some? && LevelName(ParseLevel(v.level).value) == v.level
    ensures r ==> v.quantityQuestions >= 0 && v.timerMinutes >= 0
  {
    && ParseLevel(v.level).Some?
    && |v.themes| >= 1
    && 3 <= v.quantityQuestions <= 5
    && 1 <= v.timerMinutes <= 5
  }

  const LevelMessage := "Selecione um nível"
  const ThemesMessage := "Selecione pelo menos um tema"
  const QuantityMinMessage := "Mínimo 3 questão"
  const QuantityMaxMessage := "Máximo 5 questões"
  const TimerMinMessage := "Mínimo 1 minutos"
  const TimerMaxMessage := "Máximo 5 minutos"

  /** The schema's complaints, one per failing field, in field order. */
  function SchemaErrors(v: FormValues): (errs: seq<string>)
    ensures errs == [] <==> SchemaAccepts(v)
    ensures |errs| <= 4
    ensures LevelMessage in errs <==> ParseLevel(v.level).None?
    ensures ThemesMessage in errs <==> |v.themes| == 0
    ensures QuantityMinMessage in errs <==> v.quantityQuestions < 3
    ensures QuantityMaxMessage in errs <==> v.quantityQuestions > 5
    ensures TimerMinMessage in errs <==> v.timerMinutes < 1
    ensures TimerMaxMessage in errs <==> v.timerMinutes > 5
  {
    (if ParseLevel(v.level).None? then [LevelMessage] else [])
    + (if |v.themes| < 1 then [ThemesMessage] else [])
    + (if v.quantityQuestions < 3 then [QuantityMinMessage]
       else if v.quantityQuestions > 5 then [QuantityMaxMessage] else [])
    + (if v.timerMinutes < 1 then [TimerMinMessage]
       else if v.timerMinutes > 5 then [TimerMaxMessage] else [])
  }

  /** The defaults break only the themes rule; picking any theme fixes them. */
  lemma DefaultsLackOnlyThemes(themes: seq<string>)
    ensures SchemaErrors(DefaultValues) == [ThemesMessage]
    ensures |themes| >= 1 ==> SchemaAccepts(DefaultValues.(themes := themes))
  {
  }

  /** The configuration built from accepted values. */
  function ToConfig(v: FormValues): (c: QuizConfig)
    requires SchemaAccepts(v)
    ensures LevelName(c.level) == v.level && c.themes == v.themes
    ensures c.quantityQuestions == v.quantityQuestions && c.timerMinutes == v.timerMinutes
    ensures 3 <= c.quantityQuestions <= 5 && 1 <= c.timerMinutes <= 5 && |c.themes| >= 1
  {
    QuizConfig(ParseLevel(v.level).value, v.themes, v.quantityQuestions as nat, v.timerMinutes as nat)
  }

  /** `themes.filter(t => t !== theme)`. */
  function Without(themes: seq<string>, theme: string): (r: seq<string>)
    ensures theme !in r
    ensures multiset(r) == multiset(themes)[theme := 0]
    ensures |r| <= |themes|
    ensures theme !in themes ==> r == themes
  {
    if themes == [] then []
    else
      assert themes == [themes[0]] + themes[1..];
      (if themes[0] == theme then [] else [themes[0]]) + Without(themes[1..], theme)
  }

  /** Filtering works piecewise, so the kept themes stay in their order. */
  lemma {:induction false} WithoutDistributes(a: seq<string>, b: seq<string>, theme: string)
    ensures Without(a + b, theme) == Without(a, theme) + Without(b, theme)
  {
    if a != [] {
      assert (a + b)[1..] == a[1..] + b;
      WithoutDistributes(a[1..], b, theme);
    } else {
      assert a + b == b;
    }
  }

  /** The themes checkbox: checking appends, unchecking removes every copy. */
  function ToggleTheme(themes: seq<string>, theme: string, checked: bool): (r: seq<string>)
    ensures checked ==> r == themes + [theme]
    ensures !checked ==> theme !in r && multiset(r) == multiset(themes)[theme := 0]
    ensures !checked && theme !in themes ==> r == themes
  {
    if checked then themes + [theme] else Without(themes, theme)
  }

  /** What `generateQuestions` is asked for. */
  datatype GenerateRequest = GenerateRequest(level: Level, theme: seq<string>, quantityQuestions: nat)

  /** What `generateQuestions` came back with. */
  datatype Generated = Generated(questions: seq<Question>) | GenerationFailed

  /** The session after onSubmit: SET_CONFIG, then SET_QUESTIONS only when
      the generator delivered. */
  function SubmitEffect(s: QuizData, v: FormValues, outcome: Generated): (r: QuizData)
    requires SchemaAccepts(v)
    ensures r.config == ToConfig(v)
    ensures r.currentQuestionIndex == s.currentQuestionIndex && r.isCompleted == s.isCompleted
    ensures r.questions == (if outcome.Generated? then outcome.questions else s.questions)
    ensures Aligned(r) <==> outcome.Generated? || |s.questions| == v.quantityQuestions
  {
    var configured := Apply(s, SetConfig(ToConfig(v)));
    if outcome.Generated? then Apply(configured, SetQuestions(outcome.questions)) else configured
  }

  /** onSubmit: store the config, ask the generator for questions with the
      same level, themes and count, and store them only if it succeeds. */
  method OnSubmit(store: QuizStore, v: FormValues, outcome: Generated)
    returns (request: GenerateRequest, dispatched: seq<Action>)
    requires SchemaAccepts(v)
    modifies store
    ensures request == GenerateRequest(ToConfig(v).level, v.themes, ToConfig(v).quantityQuestions)
    ensures |dispatched| >= 1 && dispatched[0] == SetConfig(ToConfig(v))
    ensures outcome.Generated? ==> dispatched == [SetConfig(ToConfig(v)), SetQuestions(outcome.questions)]
    ensures outcome.GenerationFailed? ==> dispatched == [SetConfig(ToConfig(v))]
    ensures CanRun(old(store.state), dispatched) && store.state == Run(old(store.state), dispatched)
    ensures store.state == SubmitEffect(old(store.state), v, outcome)
  {
    var config := ToConfig(v);
    store.Dispatch(SetConfig(config));
    dispatched := [SetConfig(config)];
    request := GenerateRequest(config.level, v.themes, config.quantityQuestions);
    ghost var configured := store.state;
    if outcome.Generated? {
      store.Dispatch(SetQuestions(outcome.questions));
      dispatched := dispatched + [SetQuestions(outcome.questions)];
      assert dispatched[1..] == [SetQuestions(outcome.questions)];
      assert Run(configured, dispatched[1..]) == store.state;
    } else {
      assert Run(configured, dispatched[1..]) == store.state;
    }
  }

  /** A failed generation leaves the earlier questions in place, with the new
      config and its `quantityQuestions` empty slots. */
  lemma SubmitFailureKeepsQuestions(s: QuizData, v: FormValues)
    requires SchemaAccepts(v)
    ensures var r := SubmitEffect(s, v, GenerationFailed);
      && r.questions == s.questions
      && r.config == ToConfig(v)
      && |r.userAnswers| == v.quantityQuestions
      && (forall i :: 0 <= i < |r.userAnswers| ==> r.userAnswers[i] == EmptyAnswer)
      && r.currentQuestionIndex == s.currentQuestionIndex
  {
  }

  /** A successful generation loads the questions with one empty slot each,
      whatever count was asked for. */
  lemma SubmitSuccessLoadsQuestions(s: QuizData, v: FormValues, qs: seq<Question>)
    requires SchemaAccepts(v)
    ensures var r := SubmitEffect(s, v, Generated(qs));
      && r.questions == qs
      && r.config == ToConfig(v)
      && |r.userAnswers| == |qs|
      && (forall i :: 0 <= i < |r.userAnswers| ==> r.userAnswers[i] == EmptyAnswer)
      && r.currentQuestionIndex == s.currentQuestionIndex
      && r.isCompleted == s.isCompleted
  {
  }
}
