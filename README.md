# Article settings drawer — a verified model

This project models the interaction core of a small article-styling page: a slide-out
drawer in which the reader picks font family, font size, font colour, background colour
and content width, then applies or resets the choice.

- `ArticleSettings` (`settings.dfy`): the settings record (`ArticleState`, five option
  fields, each a title/value pair), the partial-record patch and its merge
  (`{ ...prev, ...patch }`), the per-field option lists, and the projection of the
  applied record onto the five style variables of the page (`cssVars`).
- `ArticleApp` (`app.dfy`): the root component `App`. Its state is the open flag, the
  applied record and the draft record. `Step` is the transition table with one event per
  handler: toggle, field change, apply, reset, and the document pointerdown and keydown
  listeners. The class `App` holds the same state in fields and has one method per
  handler. Each method is proved to perform the matching `Step`. The lemmas about `Step`
  and about `Run`, its fold over event sequences, cover these points:
  - only apply and reset reach the page;
  - each draft key holds its last write;
  - reset forgets history and is idempotent;
  - unsaved edits survive a dismiss-and-reopen cycle;
  - the option-list invariant is preserved.
- `CloseHook` (`close_hook.dfy`): the reusable `useCloseOnOutsideClickOrEsc` hook. It has
  the mousedown and keydown decisions, counted as calls of `onClose`, and the gating on
  the open flag. The window's listener registration is a pair of counters. The effect
  and its cleanup are proved to keep exactly one pair of listeners while active and
  none otherwise.
- `ArrowButton` (`arrow_button.dfy`): the stateless toggle control. A click, Enter or
  Space calls `onClick` once. For the keys the default is suppressed first.
  `aria-pressed` and the open styling follow `isOpen`.
- `ArticleParamsForm` (`params_form.dfy`): the stateless drawer. Submit and reset
  suppress the default, then call `onApply` or `onReset` once. Each widget emits a patch
  with only its own key. The render shows each draft key in its own widget, next to that
  key's option list. The aside is always mounted, and `aria-hidden` is `!isOpen`.
- `Page` (`page.dfy`): the wiring in `App`. It turns user events into App transitions,
  and proves properties of the whole page. The main one is that the applied and draft
  records only ever hold entries of the option lists, provided every selection is one its
  widget offers.
- `Dom` (`dom.dfy`): node identity, nullable references and `Node.contains`. An element
  is described by itself and the nodes below it.

`onToggle` (src/index.tsx:34) only flips the flag and does not re-seed the draft from
the applied record. So edits made before an Escape or an outside press are still in the
draft when the drawer opens again (`ArticleApp.EditsSurviveDismissAndReopen`).

The model also shows a consequence of how the page is put together. The toggle control
is rendered beside the aside, not inside it. A mouse press on the control while the drawer
is open therefore first reaches the document's pointerdown listener, which closes the
drawer. The click that follows then toggles it open again
(`Page.ArrowMousePressWhileOpenReopens`). Enter or Space on the control does close it
(`Page.ArrowKeyWhileOpenCloses`).

The hook and the App dismiss on a press by different rules. With an empty element ref
the hook closes on any non-null target: `undefined` negated is `true`. The App does not
close in that case (`Page.DismissRulesCompared`).

## Model

| member | source | states |
|---|---|---|
| ArticleSettings.Merge | src/index.tsx:35-36 | every key the patch carries takes the patch's value; every other key keeps the previous value |
| ArticleSettings.MergeCompose | src/index.tsx:35-36 | two successive patches equal one merge of their union, the later patch winning on shared keys; the empty patch changes nothing |
| ArticleSettings.MergePreservesValid | src/index.tsx:35-36 | a patch whose values come from the option lists keeps a record within the option lists |
| ArticleSettings.CssVars | src/index.tsx:69-79 | exactly five style variables; each named variable carries the underlying value of its field (`--font-family`, `--font-size`, `--font-color`, `--bg-color`, `--container-width`) of the record given |
| ArticleApp.Step | src/index.tsx:34-67 | only apply and reset change the applied record; only field changes and reset change the draft; only toggle opens; apply and reset close; the document listeners never change the records and can only close |
| ArticleApp.AppliedOnlyByApplyOrReset | src/index.tsx:34-79 | after any sequence of events with no apply and no reset, the applied record and the page's style variables are unchanged |
| ArticleApp.DraftIsLastWrite | src/index.tsx:35-48 | after any sequence of events, each draft key holds the value of the last field change carrying it or of the last reset, or its old value if nothing wrote it |
| ArticleApp.EditsKeepOpenAndApplied | src/index.tsx:35-36 | field changes leave the open flag and the applied record unchanged |
| ArticleApp.EditsSurviveDismissAndReopen | src/index.tsx:34-67 | open, edit, dismiss by Escape or outside press, open again: the drawer is open with exactly the edited draft, and the applied record is the one from before opening |
| ArticleApp.ResetForgetsHistory | src/index.tsx:43-48 | after any history, reset yields closed with both records equal to the reset target; a second reset changes nothing |
| ArticleApp.RunPreservesValid | src/index.tsx:31-48 | with a reset target and field changes drawn from the option lists, both records stay within the option lists after any sequence of events |
| ArticleApp.App.constructor | src/index.tsx:26-31 | starts closed with applied, draft and reset target all equal to the default record |
| ArticleApp.App.OnToggle | src/index.tsx:34 | flips the open flag; draft and applied unchanged (no re-seed) |
| ArticleApp.App.OnChangeDraft | src/index.tsx:35-36 | the draft's patched keys take the patch values, the other keys keep their values; applied and the open flag unchanged |
| ArticleApp.App.OnApply | src/index.tsx:38-41 | applied becomes the current draft, the drawer closes, the draft stays |
| ArticleApp.App.OnReset | src/index.tsx:43-48 | draft and applied both become the reset target and the drawer closes, whatever the prior state |
| ArticleApp.App.OnDocumentPointerDown | src/index.tsx:51-59 | while open, closes exactly when the aside exists and does not contain the target; while closed nothing changes; the records never change |
| ArticleApp.App.OnDocumentKeyDown | src/index.tsx:61-67 | while open, Escape closes and any other key changes nothing; while closed nothing changes; the records never change |
| ArticleApp.App.StyleVars | src/index.tsx:69-79 | each style variable carries the value of the matching field of the applied record, whatever the draft is |
| CloseHook.HandleMouseDown | src/hooks/useCloseOnOutsideClickOrEsc.ts:17-22 | at most one `onClose` call; none with a null target or no `onClose`; exactly one for a non-null target when the ref is empty; with an element present, one exactly when the target is outside it |
| CloseHook.HandleKeyDown | src/hooks/useCloseOnOutsideClickOrEsc.ts:24-28 | one `onClose` call exactly when the key is Escape and `onClose` is present, whatever the target |
| CloseHook.Dispatch | src/hooks/useCloseOnOutsideClickOrEsc.ts:14-31 | while the element is closed no listener exists and no event calls `onClose`; while open each event does what its listener does |
| CloseHook.RerenderKeepsOnePair | src/hooks/useCloseOnOutsideClickOrEsc.ts:14-36 | across any number of effect re-runs, one mousedown and one keydown listener are registered when the last run was active and none otherwise; the final cleanup restores the original count |
| CloseHook.Window.RunEffect | src/hooks/useCloseOnOutsideClickOrEsc.ts:15-31 | an active run adds exactly one mousedown and one keydown listener and returns a cleanup; an inactive run adds nothing and returns none |
| CloseHook.Window.RunCleanup | src/hooks/useCloseOnOutsideClickOrEsc.ts:32-35 | removes exactly one listener of each kind |
| ArrowButton.React | src/ui/arrow-button/ArrowButton.tsx:23-29 | a click, Enter or Space calls `onClick` exactly once and every other key not at all; the default is suppressed exactly for Enter and Space, before `onClick` |
| ArrowButton.Render | src/ui/arrow-button/ArrowButton.tsx:14-37 | `aria-pressed` equals `isOpen`; container and arrow open styling present exactly when pressed; a focusable element with the button role |
| ArticleParamsForm.WidgetPatch | src/components/article-params-form/ArticleParamsForm.tsx:67-108 | a widget's patch has exactly one key, its own field, carrying the selected entry |
| ArticleParamsForm.Lift | src/components/article-params-form/ArticleParamsForm.tsx:53 | the toggle control's `onClick` is `onToggle`: each of its calls becomes one `onToggle` call, in the same order |
| ArticleParamsForm.React | src/components/article-params-form/ArticleParamsForm.tsx:41-108 | at most one callback per event. Submit and reset suppress the default, then call `onApply` or `onReset`. A selection calls `onChange` with a one-key patch of its field. Toggle-control events call `onToggle` exactly when they activate the control |
| ArticleParamsForm.Render | src/components/article-params-form/ArticleParamsForm.tsx:51-110 | the toggle control shows the same `isOpen`. The aside is always rendered; its open styling is present exactly when `isOpen`, and `aria-hidden` is `!isOpen`. Five widgets with distinct fields, each showing its draft key and offering its key's option list. Only font size is a radio group |
| ArticleParamsForm.EveryFieldShown | src/components/article-params-form/ArticleParamsForm.tsx:67-109 | every field has a widget, and a valid draft shows an offered entry in every widget |
| Page.TransitionsValid | src/index.tsx:83-91 | a user event whose selection is an offered entry triggers only field changes drawn from the option lists |
| Page.PageKeepsOptionsValid | src/index.tsx:83-91 | from the default record, after any sequence of user events whose selections are offered entries, applied and draft hold only offered entries |
| Page.SelectThenSubmit | src/index.tsx:38-41 | selecting an entry and submitting closes the drawer; applied equals the draft; the field holds the entry and its style variable its value; other fields keep the draft's values |
| Page.ArrowMousePressWhileOpenReopens | src/index.tsx:51-59 | while open, a mouse press on the toggle control outside the aside (pointerdown then click) leaves the drawer open and the state unchanged |
| Page.ArrowKeyWhileOpenCloses | src/ui/arrow-button/ArrowButton.tsx:24-28 | while open, Enter or Space on the toggle control, followed by the same key reaching the document, closes the drawer and changes nothing else |
| Page.DismissRulesCompared | src/hooks/useCloseOnOutsideClickOrEsc.ts:17-28 | with an element present the hook's mousedown rule and the App's pointerdown rule agree; with an empty ref the hook closes and the App does not; the Escape rules agree |

## Left out

- Rendering, JSX layout, class-name composition, style sheets, the root mount and strict
  mode. Only the values a render exposes (open styling, `aria-pressed`, `aria-hidden`,
  the widgets' selected entries and option lists) are modelled.
- The widget primitives (`Select`, `RadioGroup`, `Button`, `Separator`, `Text`), the
  `Article` component and the icon asset are not part of this model. A widget is assumed
  to report only entries it offers; `Page.OfferedOnly` states that assumption.
- `src/constants/articleProps` is not part of this model. The option lists and the default
  record are parameters, and the invariant lemmas assume the default is drawn from the
  option lists.
- The real browser listener lists and React's effect scheduling and batching are not
  modelled. Each handler call is one atomic transition.
- The registration of the App's own two effects (src/index.tsx:51-67) is modelled only as
  the open-flag gate in `Step`. Only the hook's registration has a listener counter.
- `ArticleApp.App.OnApply`: the source copies the `draft` captured at the last render. The
  model copies the current draft. The two differ only if two handlers ran without a
  render between them.
- `Node.contains` is modelled as membership in the element's own node and the nodes below
  it. The DOM tree itself is not modelled.
- `ArticleApp.App.OnDocumentPointerDown`: the event target is a non-null node. The source
  casts it to `Node` without a null check.
- `ArticleSettings.Merge`: a patch is a partial map from keys to entries. A key present
  with an explicit `undefined` value, which the spread would copy, is not representable.
  No caller produces one.
- The event object that the toggle control passes to `onClick` on a click is dropped:
  `onToggle` ignores its arguments.
- Labels, titles and accessibility label texts are not modelled. What CSS does with the
  style variables is not modelled either.
