/** `ArrowButton`: the stateless toggle control. What it shows and what it does are
    functions of its props (`isOpen`, `onClick`) and of the event alone. */
module ArrowButton {

  /** A user event on the control. */
  datatype ControlEvent = Click | KeyDown(key: string)

  /** What a handler does, in order. */
  datatype Effect = PreventDefault | CallOnClick

  /** The keys that activate the control. */
  predicate IsActivationKey(key: string)
  {
    key == "Enter" || key == " "
  }

  /** Whether an event activates the control. */
  predicate Activates(e: ControlEvent)
  {
    e.Click? || IsActivationKey(e.key)
  }

  /** The control's handlers: a click passes straight to `onClick`; Enter or Space first
      suppresses the browser's default (page scroll) and then calls `onClick`; every
      other key is ignored. */
  function React(e: ControlEvent): (effects: seq<Effect>)
    ensures multiset(effects)[CallOnClick] == if Activates(e) then 1 else 0
    ensures PreventDefault in effects <==> e.KeyDown? && IsActivationKey(e.key)
    ensures forall i :: 0 <= i < |effects| && effects[i] == PreventDefault ==> i == 0
  {
    match e
    case Click => [CallOnClick]
    case KeyDown(key) => if IsActivationKey(key) then [PreventDefault, CallOnClick] else []
  }

  /** The rendered control: its role, accessibility state, focusability and the open
      styling of the container and of the arrow icon. */
  datatype View = View(role: string, ariaPressed: bool, tabIndex: int, containerOpen: bool, arrowOpen: bool)

  /** Rendering: the pressed state reports `isOpen`, and both open stylings are present
      exactly when the control reports itself pressed. */
  function Render(isOpen: bool): (v: View)
    ensures v.ariaPressed == isOpen
    ensures v.containerOpen == v.ariaPressed && v.arrowOpen == v.ariaPressed
    ensures v.role == "button" && v.tabIndex == 0
  {
    View("button", isOpen, 0, isOpen, isOpen)
  }
}
