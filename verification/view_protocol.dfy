/**
 * The view manager's protocol, on values: what loading, switching and
 * dispatching do to the manager's abstract state and which view callbacks
 * they invoke, in which order.
 *
 * A view's callbacks are not modelled by their bodies. What the manager
 * needs from them (the value try_enter returns, the value an event handler
 * returns) is an input, and each invocation is recorded as an Event, so
 * that the order of invocations can be stated.
 */
module ViewProtocol {
  import S = ViewSymbols

  /** DT_VIEW_MAX_MODULES: the number of slots in the manager's table. */
  const MaxModules: int := 10
  /** current_view when no view is active. */
  const NoView: int := -1
  /** What load_module returns when it fills no slot. */
  const LoadFailed: int := -1
  /** What switch (and try_enter) return when the view can be entered. */
  const Accepted: int := 0
  /** What switch returns for a slot that holds no loaded view. */
  const NoSuchView: int := 1
  /** What an int-returning dispatcher returns when no callback handled the event. */
  const NotHandled: int := 0

  /** A C float, kept as its bit pattern: the manager stores it and never computes with it. */
  type Float = bv32
  /** A C double, kept as its bit pattern. */
  type Double = bv64

  datatype Option<T> = None | Some(value: T)

  /** The six scroll bar fields of a view: size, viewport size and position, vertical then horizontal. */
  datatype Scrollbars = Scrollbars(
    vSize: Float, vViewportSize: Float, vPos: Float,
    hSize: Float, hViewportSize: Float, hPos: Float)

  /** The scroll bar fields of a freshly loaded view. */
  const Unscrolled := Scrollbars(0, 0, 0, 0, 0, 0)

  /** One invocation of a view callback, with the arguments it receives. */
  datatype Call =
    | Name
    | Init
    | Cleanup
    | Expose(width: int, height: int, pointerX: int, pointerY: int, scroll: Scrollbars)
    | TryEnter
    | Enter
    | Leave
    | Reset
    | MouseLeave
    | MouseMoved(x: Double, y: Double, which: int)
    | ButtonReleased(x: Double, y: Double, which: int, state: bv32)
    | ButtonPressed(x: Double, y: Double, which: int, kind: int, state: bv32)
    | KeyPressed(key: bv16)
    | Configure(width: int, height: int)
    | Scrolled(x: Double, y: Double, up: int)
    | BorderScrolled(x: Double, y: Double, border: int, up: int)

  /**
   * The calls a host can make through the manager's dispatchers (name,
   * expose, reset and the event forwarders); init, cleanup and the switch
   * protocol's try_enter, enter and leave are reached only through load,
   * cleanup and switch.
   */
  predicate HostEvent(c: Call)
  {
    !(c.Init? || c.Cleanup? || c.TryEnter? || c.Enter? || c.Leave?)
  }

  type HostCall = c: Call | HostEvent(c) witness Reset

  /** The exported symbol a call goes through. */
  function SymbolOf(c: Call): S.Symbol
  {
    match c
    case Name => S.Name
    case Init => S.Init
    case Cleanup => S.Cleanup
    case Expose(_, _, _, _, _) => S.Expose
    case TryEnter => S.TryEnter
    case Enter => S.Enter
    case Leave => S.Leave
    case Reset => S.Reset
    case MouseLeave => S.MouseLeave
    case MouseMoved(_, _, _) => S.MouseMoved
    case ButtonReleased(_, _, _, _) => S.ButtonReleased
    case ButtonPressed(_, _, _, _, _) => S.ButtonPressed
    case KeyPressed(_) => S.KeyPressed
    case Configure(_, _) => S.Configure
    case Scrolled(_, _, _) => S.Scrolled
    case BorderScrolled(_, _, _, _) => S.BorderScrolled
  }

  /** The callback `call` of the view in slot `slot` was invoked. */
  datatype Event = Event(slot: int, call: Call)

  /** What the manager knows of a loaded view: its module name and its exported callbacks. */
  datatype LoadedView = LoadedView(name: string, symbols: set<S.Symbol>)

  /** The loaded slots view[0 .. num_views) and current_view. */
  datatype ManagerState = ManagerState(views: seq<LoadedView>, current: int)

  /** The outcome of one manager operation: the new state, the value returned, the callbacks invoked. */
  datatype Step = Step(next: ManagerState, result: int, calls: seq<Event>)

  predicate Active(s: ManagerState)
  {
    0 <= s.current < |s.views|
  }

  /** At most MaxModules views are loaded, and current_view is either NoView or a loaded slot. */
  predicate WellFormed(s: ManagerState)
  {
    |s.views| <= MaxModules && (s.current == NoView || Active(s))
  }

  /** Calling an optional callback: nothing happens when the view does not export it. */
  function Invoke(slot: int, c: Call, exported: set<S.Symbol>): seq<Event>
  {
    if SymbolOf(c) in exported then [Event(slot, c)] else []
  }

  /**
   * load_module: the module is bound into the next free slot, if there is
   * one; `unit` is what the dynamic loader delivers, None when the unit
   * cannot be opened and otherwise the symbols it exports. A loaded view's
   * init runs right after binding.
   */
  function LoadStep(s: ManagerState, name: string, unit: Option<set<S.Symbol>>): (r: Step)
    ensures r.result != LoadFailed <==> |s.views| < MaxModules && unit.Some?
    ensures r.result != LoadFailed ==>
      0 <= r.result < MaxModules && r.result == |s.views| &&
      r.next.current == s.current &&
      |r.next.views| == |s.views| + 1 && r.next.views[..|s.views|] == s.views &&
      r.next.views[r.result] == LoadedView(name, unit.value)
    ensures r.result == LoadFailed ==> r.next == s && r.calls == []
    ensures r.calls == if r.result != LoadFailed && S.Init in unit.value then [Event(r.result, Init)] else []
    ensures WellFormed(s) ==> WellFormed(r.next)
  {
    if |s.views| >= MaxModules || unit.None? then
      Step(s, LoadFailed, [])
    else
      var slot := |s.views|;
      Step(ManagerState(s.views + [LoadedView(name, unit.value)], s.current),
           slot, Invoke(slot, Init, unit.value))
  }

  /** The position a callback takes in a switch: try_enter, then leave, then enter. */
  function Stage(c: Call): nat
  {
    match c
    case TryEnter => 0
    case Leave => 1
    case Enter => 2
    case _ => 3
  }

  /**
   * switch(k): the target's try_enter is asked first (`verdict` is what it
   * returns); only when it accepts is the previously active view told to
   * leave, and then the target entered and made current.
   */
  function SwitchStep(s: ManagerState, k: int, verdict: int): (r: Step)
    ensures r.result == Accepted <==>
      0 <= k < |s.views| && (S.TryEnter in s.views[k].symbols ==> verdict == Accepted)
    ensures r.result != Accepted ==> r.next == s && r.calls <= [Event(k, TryEnter)]
    ensures r.result != Accepted && 0 <= k < |s.views| ==> r.result == verdict
    ensures r.result == Accepted ==> r.next == ManagerState(s.views, k)
    ensures WellFormed(s) ==> WellFormed(r.next)
  {
    if !(0 <= k < |s.views|) then
      Step(s, NoSuchView, [])
    else
      var target := s.views[k].symbols;
      var probe := Invoke(k, TryEnter, target);
      var answer := if S.TryEnter in target then verdict else Accepted;
      if answer != Accepted then
        Step(s, answer, probe)
      else
        var leave := if Active(s) && s.current != k then Invoke(s.current, Leave, s.views[s.current].symbols) else [];
        Step(ManagerState(s.views, k), Accepted, probe + leave + Invoke(k, Enter, target))
  }

  /**
   * The callbacks a switch invokes: the target's try_enter first, when it is
   * exported; on acceptance the outgoing view's leave, then the target's
   * enter last; nothing else, and only callbacks the views export.
   */
  lemma SwitchCalls(s: ManagerState, k: int, verdict: int)
    ensures var r := SwitchStep(s, k, verdict);
      (0 <= k < |s.views| && S.TryEnter in s.views[k].symbols ==>
        r.calls != [] && r.calls[0] == Event(k, TryEnter)) &&
      (r.result == Accepted && Active(s) && s.current != k && S.Leave in s.views[s.current].symbols ==>
        Event(s.current, Leave) in r.calls) &&
      (r.result == Accepted && S.Enter in s.views[k].symbols ==>
        r.calls != [] && r.calls[|r.calls| - 1] == Event(k, Enter))
    ensures var r := SwitchStep(s, k, verdict);
      forall i :: 0 <= i < |r.calls| ==>
        (r.calls[i] == Event(k, TryEnter) || r.calls[i] == Event(k, Enter) ||
         (r.calls[i] == Event(s.current, Leave) && Active(s) && s.current != k)) &&
        0 <= r.calls[i].slot < |s.views| && SymbolOf(r.calls[i].call) in s.views[r.calls[i].slot].symbols
    ensures var r := SwitchStep(s, k, verdict);
      forall i, j :: 0 <= i < j < |r.calls| ==> Stage(r.calls[i].call) < Stage(r.calls[j].call)
  {
  }

  /**
   * The event dispatchers (expose, reset and the input forwarders): the call
   * reaches the active view's callback, and nothing else.
   */
  function Forward(s: ManagerState, c: Call): (r: seq<Event>)
    ensures r != [] <==> Active(s) && SymbolOf(c) in s.views[s.current].symbols
    ensures r == [] || r == [Event(s.current, c)]
  {
    if Active(s) then Invoke(s.current, c, s.views[s.current].symbols) else []
  }

  /** What an int-returning dispatcher returns: the handler's reply, or NotHandled when no handler ran. */
  function Reply(s: ManagerState, c: Call, reply: int): (r: int)
    ensures Forward(s, c) != [] ==> r == reply
    ensures Forward(s, c) == [] ==> r == NotHandled
  {
    if Active(s) && SymbolOf(c) in s.views[s.current].symbols then reply else NotHandled
  }

  /**
   * The manager's name: the active view's translated name (`translated` is
   * what its name callback returns), its module name when it exports no
   * name callback, and the empty string when no view is active.
   */
  function ViewName(s: ManagerState, translated: string): (r: string)
    ensures !Active(s) ==> r == []
    ensures Forward(s, Name) != [] ==> r == translated
    ensures Active(s) && Forward(s, Name) == [] ==> r == s.views[s.current].name
  {
    if !Active(s) then []
    else if S.Name in s.views[s.current].symbols then translated
    else s.views[s.current].name
  }

  /**
   * The cleanup callbacks invoked while unloading the first n of the given
   * views: one per view that exports cleanup, in slot order.
   */
  function CleanupCalls(views: seq<LoadedView>, n: nat): (r: seq<Event>)
    requires n <= |views|
    ensures |r| <= n
    ensures forall i :: 0 <= i < |r| ==> r[i].call == Cleanup && 0 <= r[i].slot < n
  {
    if n == 0 then [] else CleanupCalls(views, n - 1) + Invoke(n - 1, Cleanup, views[n - 1].symbols)
  }

  /** Every cleanup call is one a view among the first n exports, and each such view's is among them. */
  lemma {:induction false} CleanupCallsExact(views: seq<LoadedView>, n: nat)
    requires n <= |views|
    ensures forall i :: 0 <= i < |CleanupCalls(views, n)| ==>
      CleanupCalls(views, n)[i].call == Cleanup && 0 <= CleanupCalls(views, n)[i].slot < n &&
      S.Cleanup in views[CleanupCalls(views, n)[i].slot].symbols
    ensures forall k :: 0 <= k < n && S.Cleanup in views[k].symbols ==> Event(k, Cleanup) in CleanupCalls(views, n)
  {
    if n > 0 {
      CleanupCallsExact(views, n - 1);
    }
  }

  /** The cleanup calls go out in increasing slot order, so no view is cleaned up twice. */
  lemma {:induction false} CleanupCallsOrdered(views: seq<LoadedView>, n: nat)
    requires n <= |views|
    ensures forall i, j :: 0 <= i < j < |CleanupCalls(views, n)| ==>
      CleanupCalls(views, n)[i].slot < CleanupCalls(views, n)[j].slot
  {
    if n > 0 {
      CleanupCallsOrdered(views, n - 1);
      CleanupCallsExact(views, n - 1);
    }
  }
}
