/** The page as `App` wires it: the form's callbacks are the App's handlers, and the
    document listeners are the App's two effects. A user event becomes the sequence of
    App transitions it triggers. */
module Page {
  import opened Dom
  import opened ArticleSettings
  import opened ArticleApp
  import Form = ArticleParamsForm
  import Arrow = ArrowButton
  import CloseHook

  /** A user event: inside the drawer (on the toggle control, the form or a widget), or a
      pointerdown or keydown that reaches the document. */
  datatype UiEvent =
    | FormInput(input: Form.FormEvent)
    | DocumentPointerDown(target: Node, aside: Nullable<Element>)
    | DocumentKeyDown(key: string)

  /** The props `App` passes: `onChange` is `onChangeDraft`, `onApply`, `onReset` and
      `onToggle` are its own handlers. */
  function Handler(cb: Form.Callback): AppEvent
  {
    match cb
    case OnChange(patch) => ChangeDraft(patch)
    case OnApply => Apply
    case OnReset => Reset
    case OnToggle => Toggle
  }

  /** The App transitions the callback calls among some handler effects trigger, in order. */
  function Calls(effects: seq<Form.FormEffect>): seq<AppEvent>
  {
    if effects == [] then []
    else (if effects[0].Call? then [Handler(effects[0].callback)] else []) + Calls(effects[1..])
  }

  /** The App transitions one user event triggers. */
  function Transitions(u: UiEvent): seq<AppEvent>
  {
    match u
    case FormInput(input) => Calls(Form.React(input))
    case DocumentPointerDown(target, aside) => [PointerDown(target, aside)]
    case DocumentKeyDown(key) => [KeyDown(key)]
  }

  /** The App transitions a sequence of user events triggers. */
  function AllTransitions(us: seq<UiEvent>): seq<AppEvent>
    decreases |us|
  {
    if us == [] then [] else Transitions(us[0]) + AllTransitions(us[1..])
  }

  /** A single callback call, with or without the default suppressed before it,
      triggers the one handler it names. */
  lemma CallsOfOne(cb: Form.Callback)
    ensures Calls([Form.Call(cb)]) == [Handler(cb)]
    ensures Calls([Form.PreventDefault, Form.Call(cb)]) == [Handler(cb)]
  {
  }

  /** Two user events trigger the transitions of the first, then those of the second. */
  lemma AllTransitionsOfTwo(u: UiEvent, v: UiEvent)
    ensures AllTransitions([u, v]) == Transitions(u) + Transitions(v)
  {
    assert [u, v][1..] == [v];
    assert [v][1..] == [];
    assert AllTransitions([v]) == Transitions(v) + [];
    assert Transitions(v) + [] == Transitions(v);
  }

  /** Whether every widget selection picks an entry its widget offers. */
  predicate OfferedOnly(sets: OptionSets, us: seq<UiEvent>)
  {
    forall i :: 0 <= i < |us| && us[i].FormInput? && us[i].input.WidgetChange? ==>
      us[i].input.choice in OptionsFor(sets, us[i].input.field)
  }

  /** A selection the widget offers yields a field change drawn from the option lists. */
  lemma TransitionsValid(sets: OptionSets, u: UiEvent)
    requires u.FormInput? && u.input.WidgetChange? ==> u.input.choice in OptionsFor(sets, u.input.field)
    ensures EventsValid(sets, Transitions(u))
  {
    if u.FormInput? {
      match u.input
      case WidgetChange(field, choice) =>
        CallsOfOne(Form.OnChange(Form.WidgetPatch(field, choice)));
      case Submit =>
        CallsOfOne(Form.OnApply);
      case FormReset =>
        CallsOfOne(Form.OnReset);
      case ArrowInput(_) =>
        CallsOfToggles(Form.React(u.input));
    }
  }

  /** Effects that call nothing but `onToggle` trigger only toggles. */
  lemma {:induction false} CallsOfToggles(effects: seq<Form.FormEffect>)
    requires forall i :: 0 <= i < |effects| ==> effects[i] in {Form.PreventDefault, Form.Call(Form.OnToggle)}
    ensures forall i :: 0 <= i < |Calls(effects)| ==> Calls(effects)[i] == Toggle
  {
    if effects != [] {
      assert effects[0] in {Form.PreventDefault, Form.Call(Form.OnToggle)};
      CallsOfToggles(effects[1..]);
    }
  }

  /** Field changes in a concatenation are drawn from the option lists when they are in
      both parts. */
  lemma EventsValidAppend(sets: OptionSets, a: seq<AppEvent>, b: seq<AppEvent>)
    requires EventsValid(sets, a) && EventsValid(sets, b)
    ensures EventsValid(sets, a + b)
  {
  }

  /** User events whose selections are offered entries trigger only field changes drawn
      from the option lists. */
  lemma {:induction false} AllTransitionsValid(sets: OptionSets, us: seq<UiEvent>)
    requires OfferedOnly(sets, us)
    ensures EventsValid(sets, AllTransitions(us))
    decreases |us|
  {
    if us != [] {
      TransitionsValid(sets, us[0]);
      assert OfferedOnly(sets, us[1..]) by {
        forall i | 0 <= i < |us[1..]| ensures us[1..][i] == us[i + 1] { }
      }
      AllTransitionsValid(sets, us[1..]);
      EventsValidAppend(sets, Transitions(us[0]), AllTransitions(us[1..]));
    }
  }

  /** The option-list invariant of the whole page: when the default record is drawn from
      the option lists and every selection is one its widget offers, the applied and the
      draft record hold only offered entries after any sequence of user events. */
  lemma PageKeepsOptionsValid(sets: OptionSets, defaultState: ArticleState, us: seq<UiEvent>)
    requires Valid(sets, defaultState)
    requires OfferedOnly(sets, us)
    ensures StateValid(sets, Run(defaultState, Start(defaultState), AllTransitions(us)))
  {
    AllTransitionsValid(sets, us);
    RunPreservesValid(sets, defaultState, Start(defaultState), AllTransitions(us));
  }

  /** Picking an entry in a widget and submitting styles the page with it: the matching
      style variable carries the entry's value, the drawer is closed and the other keys
      of the page keep the draft's values. */
  lemma SelectThenSubmit(initial: ArticleState, s: AppState, f: Field, choice: ArticleOption)
    ensures var r := Run(initial, s, AllTransitions([FormInput(Form.WidgetChange(f, choice)), FormInput(Form.Submit)]));
            !r.isOpen && Get(r.applied, f) == choice && CssVars(r.applied)[VarName(f)] == choice.value
            && r.applied == r.draft
            && forall g: Field :: g != f ==> Get(r.applied, g) == Get(s.draft, g)
  {
    var change := FormInput(Form.WidgetChange(f, choice));
    var submit := FormInput(Form.Submit);
    var patch := Form.WidgetPatch(f, choice);
    CallsOfOne(Form.OnChange(patch));
    CallsOfOne(Form.OnApply);
    AllTransitionsOfTwo(change, submit);
    assert AllTransitions([change, submit]) == [ChangeDraft(patch)] + [Apply];
    RunAppend(initial, s, [ChangeDraft(patch)], [Apply]);
    RunOne(initial, s, ChangeDraft(patch));
    RunOne(initial, Step(initial, s, ChangeDraft(patch)), Apply);
  }

  /** A mouse press on the toggle control reaches the document as a pointerdown before
      the click. The control sits beside the aside, not inside it, so while the drawer is
      open the pointerdown closes it and the click that follows opens it again: the
      drawer ends up open, with both records unchanged. */
  lemma ArrowMousePressWhileOpenReopens(initial: ArticleState, s: AppState, arrowNode: Node, aside: Element)
    requires s.isOpen
    requires !Contains(aside, arrowNode)
    ensures Run(initial, s, AllTransitions([DocumentPointerDown(arrowNode, NonNull(aside)), FormInput(Form.ArrowInput(Arrow.Click))])) == s
  {
    var press := DocumentPointerDown(arrowNode, NonNull(aside));
    var click := FormInput(Form.ArrowInput(Arrow.Click));
    CallsOfOne(Form.OnToggle);
    AllTransitionsOfTwo(press, click);
    assert AllTransitions([press, click]) == [PointerDown(arrowNode, NonNull(aside))] + [Toggle];
    RunAppend(initial, s, [PointerDown(arrowNode, NonNull(aside))], [Toggle]);
    RunOne(initial, s, PointerDown(arrowNode, NonNull(aside)));
    RunOne(initial, s.(isOpen := false), Toggle);
  }

  /** From the keyboard the toggle control does close the open drawer: Enter or Space on
      the control toggles it, and the same key then reaching the document is not Escape. */
  lemma ArrowKeyWhileOpenCloses(initial: ArticleState, s: AppState, key: string)
    requires s.isOpen
    requires Arrow.IsActivationKey(key)
    ensures Run(initial, s, AllTransitions([FormInput(Form.ArrowInput(Arrow.KeyDown(key))), DocumentKeyDown(key)])) ==
              s.(isOpen := false)
  {
    var press := FormInput(Form.ArrowInput(Arrow.KeyDown(key)));
    var bubble := DocumentKeyDown(key);
    var effects := Form.React(press.input);
    assert effects[0] == Form.PreventDefault && effects[1] == Form.Call(Form.OnToggle);
    assert effects == [Form.PreventDefault, Form.Call(Form.OnToggle)];
    CallsOfOne(Form.OnToggle);
    AllTransitionsOfTwo(press, bubble);
    assert AllTransitions([press, bubble]) == [Toggle] + [KeyDown(key)];
    RunAppend(initial, s, [Toggle], [KeyDown(key)]);
    RunOne(initial, s, Toggle);
    RunOne(initial, s.(isOpen := false), KeyDown(key));
  }

  /** The App's pointerdown rule and the hook's mousedown rule agree on a present element
      and differ on an empty ref: there the hook closes and the App does not. Their
      Escape rules agree. */
  lemma DismissRulesCompared(aside: Nullable<Element>, target: Node, key: string)
    ensures aside.NonNull? ==>
              (CloseHook.HandleMouseDown(aside, true, NonNull(target)) == 1 <==> PointerDownOutside(aside, target))
    ensures aside.Null? ==>
              CloseHook.HandleMouseDown(aside, true, NonNull(target)) == 1 && !PointerDownOutside(aside, target)
    ensures CloseHook.HandleKeyDown(true, key) == 1 <==> IsEscape(key)
  {
  }
}
