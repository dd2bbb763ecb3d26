/** `useCloseOnOutsideClickOrEsc`: while its element is open, two window listeners
    (mousedown, keydown) decide whether to call an optional `onClose`. Each listener
    invocation is one atomic decision; the listener registration is a pair of
    counters on the window. */
module CloseHook {
  import opened Dom

  /** `elementRef.current?.contains(target)`: `Null` (undefined) when the ref is empty. */
  function OptionalContains(elementRef: Nullable<Element>, target: Node): Nullable<bool>
  {
    match elementRef
    case Null => Null
    case NonNull(el) => NonNull(Contains(el, target))
  }

  /** JavaScript truthiness of a possibly undefined boolean. */
  predicate Truthy(b: Nullable<bool>)
  {
    b.NonNull? && b.value
  }

  /** `handleMouseDown`: how many times one mousedown calls `onClose`. A null target never
      closes; an empty ref closes on any non-null target, since the negation of
      `undefined` is true; otherwise the press closes exactly when it lands outside. */
  function HandleMouseDown(elementRef: Nullable<Element>, onClosePresent: bool, target: Nullable<Node>): (calls: nat)
    ensures calls <= 1
    ensures !onClosePresent || target.Null? ==> calls == 0
    ensures onClosePresent && target.NonNull? && elementRef.Null? ==> calls == 1
    ensures onClosePresent && target.NonNull? && elementRef.NonNull? ==>
              (calls == 1 <==> !Contains(elementRef.value, target.value))
  {
    if target.NonNull? && !Truthy(OptionalContains(elementRef, target.value)) then
      (if onClosePresent then 1 else 0)
    else 0
  }

  /** `handleKeyDown`: Escape calls `onClose` once, wherever the focus is; any other key
      does nothing. */
  function HandleKeyDown(onClosePresent: bool, key: string): (calls: nat)
    ensures calls <= 1
    ensures calls == 1 <==> onClosePresent && key == "Escape"
  {
    if key == "Escape" && onClosePresent then 1 else 0
  }

  /** An event that reaches the window. */
  datatype WindowEvent = MouseDown(target: Nullable<Node>) | KeyDown(key: string)

  /** What one window event does through the hook: nothing at all while the element is
      closed (no listener is registered), otherwise what the matching listener does. */
  function Dispatch(isOpenElement: bool, elementRef: Nullable<Element>, onClosePresent: bool, e: WindowEvent): (calls: nat)
    ensures calls <= 1
    ensures !isOpenElement || !onClosePresent ==> calls == 0
    ensures isOpenElement && e.KeyDown? ==> calls == HandleKeyDown(onClosePresent, e.key)
    ensures isOpenElement && e.MouseDown? ==> calls == HandleMouseDown(elementRef, onClosePresent, e.target)
  {
    if !isOpenElement then 0
    else match e
      case MouseDown(t) => HandleMouseDown(elementRef, onClosePresent, t)
      case KeyDown(k) => HandleKeyDown(onClosePresent, k)
  }

  /** Number of mousedown and keydown listeners registered on the window. */
  datatype Registry = Registry(mousedown: nat, keydown: nat)

  /** The effect body: when active it adds one listener of each kind. */
  function Activate(r: Registry, active: bool): Registry
  {
    if active then Registry(r.mousedown + 1, r.keydown + 1) else r
  }

  /** The cleanup the effect returned: it removes the two listeners that run added. */
  function Deactivate(r: Registry, active: bool): Registry
    requires active ==> r.mousedown >= 1 && r.keydown >= 1
  {
    if active then Registry(r.mousedown - 1, r.keydown - 1) else r
  }

  /** Successive runs of the effect: before each run React calls the cleanup of the run
      before it (`prev` says whether that run registered anything). */
  function Rerender(r: Registry, prev: bool, renders: seq<bool>): Registry
    requires prev ==> r.mousedown >= 1 && r.keydown >= 1
    decreases |renders|
  {
    if renders == [] then r
    else Rerender(Activate(Deactivate(r, prev), renders[0]), renders[0], renders[1..])
  }

  /** The activity of the last run of the effect. */
  function LastActive(prev: bool, renders: seq<bool>): bool
  {
    if renders == [] then prev else renders[|renders| - 1]
  }

  /** However many times the effect re-runs, exactly one pair of listeners is registered
      when the last run was active and none otherwise, on top of what was there before;
      the final cleanup brings the window back to that. */
  lemma {:induction false} RerenderKeepsOnePair(base: Registry, prev: bool, renders: seq<bool>)
    ensures Rerender(Activate(base, prev), prev, renders) == Activate(base, LastActive(prev, renders))
    ensures Deactivate(Rerender(Activate(base, prev), prev, renders), LastActive(prev, renders)) == base
    decreases |renders|
  {
    if renders != [] {
      assert Activate(Deactivate(Activate(base, prev), prev), renders[0]) == Activate(base, renders[0]);
      RerenderKeepsOnePair(base, renders[0], renders[1..]);
      assert LastActive(renders[0], renders[1..]) == LastActive(prev, renders);
    }
  }

  /** The window whose listener list the hook's effect changes. */
  class Window {
    var mousedown: nat
    var keydown: nat

    function Listeners(): Registry
      reads this
    {
      Registry(mousedown, keydown)
    }

    constructor ()
      ensures Listeners() == Registry(0, 0)
    {
      mousedown, keydown := 0, 0;
    }

    /** One run of the effect: nothing when the element is closed, otherwise one
        mousedown and one keydown listener and a cleanup to remove them. */
    method RunEffect(isOpenElement: bool) returns (hasCleanup: bool)
      modifies this
      ensures hasCleanup == isOpenElement
      ensures Listeners() == Activate(old(Listeners()), isOpenElement)
      ensures isOpenElement ==> mousedown == old(mousedown) + 1 && keydown == old(keydown) + 1
    {
      hasCleanup := isOpenElement;
      if isOpenElement {
        mousedown := mousedown + 1;
        keydown := keydown + 1;
      }
    }

    /** The cleanup a run of the effect returned: removes that run's two listeners. */
    method RunCleanup()
      requires mousedown >= 1 && keydown >= 1
      modifies this
      ensures Listeners() == Deactivate(old(Listeners()), true)
      ensures mousedown == old(mousedown) - 1 && keydown == old(keydown) - 1
    {
      mousedown := mousedown - 1;
      keydown := keydown - 1;
    }
  }
}
