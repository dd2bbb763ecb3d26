/** `ArticleParamsForm`: the settings drawer. It owns no state: it shows the draft record
    it is given and turns each user event into at most one call of the callbacks it is
    given. */
module ArticleParamsForm {
  import opened ArticleSettings
  import Arrow = ArrowButton

  /** The callbacks the form receives as props. */
  datatype Callback = OnChange(patch: Patch) | OnApply | OnReset | OnToggle

  /** A user event inside the drawer: on the toggle control, the form's submit or reset,
      or a selection in the widget bound to `field`. */
  datatype FormEvent =
    | ArrowInput(input: Arrow.ControlEvent)
    | Submit
    | FormReset
    | WidgetChange(field: Field, choice: ArticleOption)

  /** What a handler does, in order. */
  datatype FormEffect = PreventDefault | Call(callback: Callback)

  /** The patch a widget's `onChange` emits: its own key and nothing else. */
  function WidgetPatch(field: Field, choice: ArticleOption): (patch: Patch)
    ensures patch.Keys == {field}
    ensures patch[field] == choice
  {
    map[field := choice]
  }

  /** The toggle control receives `onToggle` as its `onClick`. */
  function Lift(effects: seq<Arrow.Effect>): (lifted: seq<FormEffect>)
    ensures |lifted| == |effects|
    ensures forall i :: 0 <= i < |effects| ==>
              lifted[i] == (if effects[i].CallOnClick? then Call(OnToggle) else PreventDefault)
  {
    if effects == [] then []
    else [if effects[0].CallOnClick? then Call(OnToggle) else PreventDefault] + Lift(effects[1..])
  }

  /** The number of callback calls among some effects. */
  function CallCount(effects: seq<FormEffect>): nat
  {
    if effects == [] then 0 else (if effects[0].Call? then 1 else 0) + CallCount(effects[1..])
  }

  /** Lifting keeps one callback call per `onClick` call. */
  lemma {:induction false} LiftCallCount(effects: seq<Arrow.Effect>)
    ensures CallCount(Lift(effects)) == multiset(effects)[Arrow.CallOnClick]
  {
    if effects != [] {
      LiftCallCount(effects[1..]);
      assert effects == [effects[0]] + effects[1..];
      assert Lift(effects)[1..] == Lift(effects[1..]);
    }
  }

  /** The form's handlers. Submit and reset suppress the browser's default and then call
      `onApply` or `onReset` once; a widget selection calls `onChange` once with a patch
      of its own key only; events on the toggle control do what the control does, with
      `onToggle` as its `onClick`. */
  function React(e: FormEvent): (effects: seq<FormEffect>)
    ensures CallCount(effects) <= 1
    ensures forall i :: 0 <= i < |effects| && effects[i].PreventDefault? ==> i == 0
    ensures e.Submit? ==> |effects| == 2 && effects[0].PreventDefault? && effects[1] == Call(OnApply)
    ensures e.FormReset? ==> |effects| == 2 && effects[0].PreventDefault? && effects[1] == Call(OnReset)
    ensures e.WidgetChange? ==>
              |effects| == 1 && effects[0].Call? && effects[0].callback.OnChange?
              && effects[0].callback.patch.Keys == {e.field}
              && effects[0].callback.patch[e.field] == e.choice
    ensures e.ArrowInput? ==>
              (CallCount(effects) == 1 <==> Arrow.Activates(e.input))
              && forall i :: 0 <= i < |effects| ==> effects[i] in {PreventDefault, Call(OnToggle)}
  {
    match e
    case ArrowInput(input) =>
      LiftCallCount(Arrow.React(input));
      Lift(Arrow.React(input))
    case Submit => [PreventDefault, Call(OnApply)]
    case FormReset => [PreventDefault, Call(OnReset)]
    case WidgetChange(field, choice) => [Call(OnChange(WidgetPatch(field, choice)))]
  }

  /** The two widget kinds the form uses. */
  datatype WidgetKind = SelectWidget | RadioGroupWidget

  /** One widget: the key it edits, the entry it shows as selected and the entries it offers. */
  datatype WidgetView = WidgetView(field: Field, kind: WidgetKind, selected: ArticleOption, options: set<ArticleOption>)

  /** The rendered drawer: the toggle control, the aside's open styling and
      accessibility state, and the widgets in order. */
  datatype FormView = FormView(arrow: Arrow.View, asideOpen: bool, ariaHidden: bool, widgets: seq<WidgetView>)

  /** Rendering. The aside is always there; it is hidden from assistive technology exactly
      when closed. The control reports the same `isOpen`. Each of the five keys has one
      widget, which shows that key of the draft and offers that key's option list. */
  function Render(isOpen: bool, draft: ArticleState, sets: OptionSets): (v: FormView)
    ensures v.arrow == Arrow.Render(isOpen)
    ensures v.asideOpen == isOpen && v.ariaHidden == !isOpen
    ensures |v.widgets| == 5
    ensures forall i, j :: 0 <= i < j < |v.widgets| ==> v.widgets[i].field != v.widgets[j].field
    ensures forall i :: 0 <= i < |v.widgets| ==>
              v.widgets[i].selected == Get(draft, v.widgets[i].field)
              && v.widgets[i].options == OptionsFor(sets, v.widgets[i].field)
    ensures forall i :: 0 <= i < |v.widgets| ==>
              (v.widgets[i].kind == RadioGroupWidget <==> v.widgets[i].field == FontSize)
  {
    FormView(Arrow.Render(isOpen), isOpen, !isOpen, [
      WidgetView(FontFamily, SelectWidget, draft.fontFamilyOption, sets.fontFamilyOptions),
      WidgetView(FontSize, RadioGroupWidget, draft.fontSizeOption, sets.fontSizeOptions),
      WidgetView(FontColor, SelectWidget, draft.fontColor, sets.fontColors),
      WidgetView(BackgroundColor, SelectWidget, draft.backgroundColor, sets.backgroundColors),
      WidgetView(ContentWidth, SelectWidget, draft.contentWidth, sets.contentWidthArr)])
  }

  /** Every key has its widget, and a valid draft shows an offered entry in each. */
  lemma EveryFieldShown(isOpen: bool, draft: ArticleState, sets: OptionSets, f: Field)
    ensures exists i :: 0 <= i < 5 && Render(isOpen, draft, sets).widgets[i].field == f
    ensures Valid(sets, draft) ==>
              forall i :: 0 <= i < 5 ==>
                Render(isOpen, draft, sets).widgets[i].selected in Render(isOpen, draft, sets).widgets[i].options
  {
    var ws := Render(isOpen, draft, sets).widgets;
    match f
    case FontFamily => assert ws[0].field == f;
    case FontSize => assert ws[1].field == f;
    case FontColor => assert ws[2].field == f;
    case BackgroundColor => assert ws[3].field == f;
    case ContentWidth => assert ws[4].field == f;
  }
}
