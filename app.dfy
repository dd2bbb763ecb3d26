/** The root component `App`: the drawer's open flag, the applied record that styles the
    page and the draft record the form edits, with one atomic transition per handler.
    `Step` is the transition table; the class `App` holds the state and has one method
    per handler, each proved to perform the matching `Step`. */
module ArticleApp {
  import opened Dom
  import opened ArticleSettings

  datatype AppState = AppState(isOpen: bool, applied: ArticleState, draft: ArticleState)

  /** One handler invocation. `PointerDown` and `KeyDown` are the document-level events
      the two effects listen to; `aside` is `asideRef.current` at that moment. */
  datatype AppEvent =
    | Toggle
    | ChangeDraft(patch: Patch)
    | Apply
    | Reset
    | PointerDown(target: Node, aside: Nullable<Element>)
    | KeyDown(key: string)

  /** The state the component starts in: closed, both records the default. */
  function Start(defaultState: ArticleState): AppState
  {
    AppState(false, defaultState, defaultState)
  }

  /** The pointerdown listener's test: the aside exists and does not contain the target.
      With an empty ref nothing closes. */
  predicate PointerDownOutside(aside: Nullable<Element>, target: Node)
  {
    aside.NonNull? && !Contains(aside.value, target)
  }

  /** The keydown listener's test. */
  predicate IsEscape(key: string)
  {
    key == "Escape"
  }

  /** The transition table. `initial` is the reset target (`initialRef.current`). Only apply
      and reset write the applied record; only field changes and reset write the draft;
      only toggle opens the drawer; apply and reset always close it; the two document
      listeners never touch the records and can only close. */
  function Step(initial: ArticleState, s: AppState, e: AppEvent): (r: AppState)
    ensures r.applied != s.applied ==> e.Apply? || e.Reset?
    ensures r.draft != s.draft ==> e.ChangeDraft? || e.Reset?
    ensures r.isOpen && !s.isOpen ==> e.Toggle?
    ensures e.Apply? || e.Reset? ==> !r.isOpen
    ensures e.PointerDown? || e.KeyDown? ==> r.isOpen ==> s.isOpen
  {
    match e
    case Toggle => s.(isOpen := !s.isOpen)
    case ChangeDraft(patch) => s.(draft := Merge(s.draft, patch))
    case Apply => s.(applied := s.draft, isOpen := false)
    case Reset => AppState(false, initial, initial)
    case PointerDown(target, aside) =>
      if s.isOpen && PointerDownOutside(aside, target) then s.(isOpen := false) else s
    case KeyDown(key) =>
      if s.isOpen && IsEscape(key) then s.(isOpen := false) else s
  }

  /** A sequence of handler invocations, one after the other. */
  function Run(initial: ArticleState, s: AppState, events: seq<AppEvent>): AppState
    decreases |events|
  {
    if events == [] then s else Run(initial, Step(initial, s, events[0]), events[1..])
  }

  /** Running two sequences is running the first, then the second from where it ended. */
  lemma {:induction false} RunAppend(initial: ArticleState, s: AppState, a: seq<AppEvent>, b: seq<AppEvent>)
    ensures Run(initial, s, a + b) == Run(initial, Run(initial, s, a), b)
    decreases |a|
  {
    if a == [] {
      assert a + b == b;
    } else {
      assert (a + b)[0] == a[0] && (a + b)[1..] == a[1..] + b;
      RunAppend(initial, Step(initial, s, a[0]), a[1..], b);
    }
  }

  /** Running a single event is taking one step. */
  lemma RunOne(initial: ArticleState, s: AppState, e: AppEvent)
    ensures Run(initial, s, [e]) == Step(initial, s, e)
  {
  }

  /** Whether an event is neither apply nor reset. */
  predicate KeepsApplied(e: AppEvent)
  {
    !e.Apply? && !e.Reset?
  }

  /** Until an apply or a reset, the applied record, and with it the page's style
      variables, stay as they were: draft edits, toggles and dismissals never reach the
      page. */
  lemma {:induction false} AppliedOnlyByApplyOrReset(initial: ArticleState, s: AppState, events: seq<AppEvent>)
    requires forall i :: 0 <= i < |events| ==> KeepsApplied(events[i])
    ensures Run(initial, s, events).applied == s.applied
    ensures CssVars(Run(initial, s, events).applied) == CssVars(s.applied)
    decreases |events|
  {
    if events != [] {
      assert KeepsApplied(events[0]);
      AppliedOnlyByApplyOrReset(initial, Step(initial, s, events[0]), events[1..]);
    }
  }

  /** The value the last event that wrote draft key `f` gave it: a field change carrying
      `f`, or a reset; `Null` when no event wrote it. */
  function LastDraftWrite(initial: ArticleState, events: seq<AppEvent>, f: Field): Nullable<ArticleOption>
    decreases |events|
  {
    if events == [] then Null
    else
      var e := events[|events| - 1];
      if e.Reset? then NonNull(Get(initial, f))
      else if e.ChangeDraft? && f in e.patch then NonNull(e.patch[f])
      else LastDraftWrite(initial, events[..|events| - 1], f)
  }

  /** After any sequence of events each draft key holds the value of its last write, or
      its old value when nothing wrote it. */
  lemma {:induction false} DraftIsLastWrite(initial: ArticleState, s: AppState, events: seq<AppEvent>, f: Field)
    ensures Get(Run(initial, s, events).draft, f) ==
              match LastDraftWrite(initial, events, f)
              case Null => Get(s.draft, f)
              case NonNull(v) => v
    decreases |events|
  {
    if events != [] {
      var n := |events| - 1;
      var prefix := events[..n];
      assert events == prefix + [events[n]];
      RunAppend(initial, s, prefix, [events[n]]);
      RunOne(initial, Run(initial, s, prefix), events[n]);
      DraftIsLastWrite(initial, s, prefix, f);
    }
  }

  /** Whether every event is a field change. */
  predicate OnlyEdits(events: seq<AppEvent>)
  {
    forall i :: 0 <= i < |events| ==> events[i].ChangeDraft?
  }

  /** Field changes leave the open flag and the applied record alone. */
  lemma {:induction false} EditsKeepOpenAndApplied(initial: ArticleState, s: AppState, edits: seq<AppEvent>)
    requires OnlyEdits(edits)
    ensures Run(initial, s, edits).isOpen == s.isOpen
    ensures Run(initial, s, edits).applied == s.applied
    decreases |edits|
  {
    if edits != [] {
      assert edits[0].ChangeDraft?;
      EditsKeepOpenAndApplied(initial, Step(initial, s, edits[0]), edits[1..]);
    }
  }

  /** Whether an event dismisses the open drawer from outside: Escape, or a press
      outside an existing aside. */
  predicate Dismissal(e: AppEvent)
  {
    (e.KeyDown? && IsEscape(e.key)) || (e.PointerDown? && PointerDownOutside(e.aside, e.target))
  }

  /** Opening does not re-seed the draft: open, edit, dismiss and open again, and the
      drawer shows the unsaved edits while the page keeps its old style. */
  lemma EditsSurviveDismissAndReopen(initial: ArticleState, s: AppState, edits: seq<AppEvent>, dismiss: AppEvent)
    requires !s.isOpen
    requires OnlyEdits(edits)
    requires Dismissal(dismiss)
    ensures Run(initial, s, [Toggle] + edits).isOpen
    ensures !Run(initial, s, [Toggle] + edits + [dismiss]).isOpen
    ensures Run(initial, s, [Toggle] + edits + [dismiss, Toggle]) ==
              Run(initial, s, [Toggle] + edits).(isOpen := true)
    ensures Run(initial, s, [Toggle] + edits + [dismiss, Toggle]).applied == s.applied
  {
    var afterOpen := Step(initial, s, Toggle);
    RunAppend(initial, s, [Toggle], edits);
    RunOne(initial, s, Toggle);
    EditsKeepOpenAndApplied(initial, afterOpen, edits);
    var edited := Run(initial, s, [Toggle] + edits);
    RunAppend(initial, s, [Toggle] + edits, [dismiss]);
    RunOne(initial, edited, dismiss);
    RunAppend(initial, s, [Toggle] + edits, [dismiss, Toggle]);
    assert [dismiss, Toggle] == [dismiss] + [Toggle];
    RunAppend(initial, edited, [dismiss], [Toggle]);
    RunOne(initial, Step(initial, edited, dismiss), Toggle);
  }

  /** Reset forgets every earlier event, and a second reset changes nothing more. */
  lemma ResetForgetsHistory(initial: ArticleState, s: AppState, events: seq<AppEvent>)
    ensures Run(initial, s, events + [Reset]) == Start(initial)
    ensures Run(initial, s, events + [Reset, Reset]) == Run(initial, s, events + [Reset])
  {
    RunAppend(initial, s, events, [Reset]);
    RunOne(initial, Run(initial, s, events), Reset);
    assert events + [Reset, Reset] == (events + [Reset]) + [Reset];
    RunAppend(initial, s, events + [Reset], [Reset]);
    RunOne(initial, Start(initial), Reset);
  }

  /** Both records hold entries of their option lists. */
  predicate StateValid(sets: OptionSets, s: AppState)
  {
    Valid(sets, s.applied) && Valid(sets, s.draft)
  }

  /** Every field change carries entries of the option lists. */
  predicate EventsValid(sets: OptionSets, events: seq<AppEvent>)
  {
    forall i :: 0 <= i < |events| ==> events[i].ChangeDraft? ==> PatchValid(sets, events[i].patch)
  }

  /** With a default drawn from the option lists and field changes drawn from them too,
      every state reached holds only entries of the option lists. */
  lemma {:induction false} RunPreservesValid(sets: OptionSets, initial: ArticleState, s: AppState, events: seq<AppEvent>)
    requires Valid(sets, initial)
    requires StateValid(sets, s)
    requires EventsValid(sets, events)
    ensures StateValid(sets, Run(initial, s, events))
    decreases |events|
  {
    if events != [] {
      var e := events[0];
      if e.ChangeDraft? {
        MergePreservesValid(sets, s.draft, e.patch);
      }
      assert EventsValid(sets, events[1..]) by {
        forall i | 0 <= i < |events[1..]| ensures events[1..][i] == events[i + 1] { }
      }
      RunPreservesValid(sets, initial, Step(initial, s, e), events[1..]);
    }
  }

  /** The component. `initial` is `initialRef.current`: set once to the default record and
      never written again. */
  class App {
    var isOpen: bool
    var applied: ArticleState
    var draft: ArticleState
    const initial: ArticleState

    function State(): AppState
      reads this
    {
      AppState(isOpen, applied, draft)
    }

    /** First render: closed, both records the default, the default kept as reset target. */
    constructor (defaultArticleState: ArticleState)
      ensures initial == defaultArticleState
      ensures State() == Start(defaultArticleState)
    {
      isOpen := false;
      applied := defaultArticleState;
      draft := defaultArticleState;
      initial := defaultArticleState;
    }

    /** `onToggle`: flips the flag; the draft is not re-seeded from the applied record. */
    method OnToggle()
      modifies this
      ensures isOpen == !old(isOpen)
      ensures applied == old(applied) && draft == old(draft)
      ensures State() == Step(initial, old(State()), Toggle)
    {
      isOpen := !isOpen;
    }

    /** `onChangeDraft`: the keys the patch carries take its values, the rest of the draft,
        the applied record and the flag stay. */
    method OnChangeDraft(patch: Patch)
      modifies this
      ensures forall f: Field :: Get(draft, f) == if f in patch then patch[f] else Get(old(draft), f)
      ensures applied == old(applied) && isOpen == old(isOpen)
      ensures State() == Step(initial, old(State()), ChangeDraft(patch))
    {
      draft := Merge(draft, patch);
    }

    /** `onApply`: the page takes the draft and the drawer closes; the draft stays. */
    method OnApply()
      modifies this
      ensures applied == old(draft) && draft == old(draft) && !isOpen
      ensures State() == Step(initial, old(State()), Apply)
    {
      applied := draft;
      isOpen := false;
    }

    /** `onReset`: both records become the reset target and the drawer closes, whatever
        the state was. */
    method OnReset()
      modifies this
      ensures draft == initial && applied == initial && !isOpen
      ensures State() == Step(initial, old(State()), Reset)
    {
      draft := initial;
      applied := initial;
      isOpen := false;
    }

    /** The document pointerdown listener, registered only while open: it closes when the
        aside exists and does not contain the target; the records never change. */
    method OnDocumentPointerDown(target: Node, aside: Nullable<Element>)
      modifies this
      ensures isOpen == (old(isOpen) && !PointerDownOutside(aside, target))
      ensures applied == old(applied) && draft == old(draft)
      ensures State() == Step(initial, old(State()), PointerDown(target, aside))
    {
      if isOpen && PointerDownOutside(aside, target) {
        isOpen := false;
      }
    }

    /** The document keydown listener, registered only while open: Escape closes, any other
        key changes nothing. */
    method OnDocumentKeyDown(key: string)
      modifies this
      ensures isOpen == (old(isOpen) && !IsEscape(key))
      ensures applied == old(applied) && draft == old(draft)
      ensures State() == Step(initial, old(State()), KeyDown(key))
    {
      if isOpen && IsEscape(key) {
        isOpen := false;
      }
    }

    /** `cssVars`: the page's style variables, computed from the applied record alone. */
    function StyleVars(): (vars: map<string, string>)
      reads this
      ensures forall f: Field :: VarName(f) in vars && vars[VarName(f)] == Get(applied, f).value
    {
      CssVars(applied)
    }
  }
}
