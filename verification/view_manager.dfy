/**
 * dt_view_t and dt_view_manager_t as objects updated in place: a view
 * handle whose fields are bound at load time and whose scroll bars are set
 * by the host, and a manager holding a fixed table of view slots, the
 * number of loaded views and the index of the current one.
 *
 * The manager carries a ghost trace of the view callbacks it invokes; each
 * method is proved to change the state and extend the trace exactly as the
 * matching step function of ViewProtocol says.
 */
module ViewManager {
  import S = ViewSymbols
  import opened ViewProtocol

  /** One view module handle (dt_view_t). */
  class View {
    /** The module name and the callback table are bound once, when the module is loaded. */
    const moduleName: string
    /** The callback symbols the unit exports; the others stay absent. */
    const symbols: set<S.Symbol>
    /** Whether the handle holds the opened dynamic unit (the `module` field). */
    var hasModule: bool
    var vscrollSize: Float
    var vscrollViewportSize: Float
    var vscrollPos: Float
    var hscrollSize: Float
    var hscrollViewportSize: Float
    var hscrollPos: Float

    function ScrollState(): Scrollbars
      reads this
    {
      Scrollbars(vscrollSize, vscrollViewportSize, vscrollPos, hscrollSize, hscrollViewportSize, hscrollPos)
    }

    /** What the manager sees of this view. */
    function Loaded(): LoadedView
    {
      LoadedView(moduleName, symbols)
    }

    /**
     * load_module on a view handle: `unit` is what the dynamic loader
     * delivers, None when the unit cannot be opened; then the handle is
     * left unusable, holding no unit and no callback.
     */
    constructor Load(name: string, unit: Option<set<S.Symbol>>)
      ensures hasModule <==> unit.Some?
      ensures moduleName == name && symbols == (if unit.Some? then unit.value else {})
      ensures ScrollState() == Unscrolled
    {
      moduleName := name;
      symbols := if unit.Some? then unit.value else {};
      hasModule := unit.Some?;
      vscrollSize, vscrollViewportSize, vscrollPos := 0, 0, 0;
      hscrollSize, hscrollViewportSize, hscrollPos := 0, 0, 0;
    }

    /** unload_module: releases the dynamic unit, at most once per load. */
    method Unload()
      requires hasModule
      modifies this
      ensures !hasModule && ScrollState() == old(ScrollState())
    {
      hasModule := false;
    }

    /** set_scrollbar: stores the six values and nothing else. */
    method SetScrollbar(hpos: Float, hsize: Float, hwinsize: Float, vpos: Float, vsize: Float, vwinsize: Float)
      modifies this
      ensures hscrollPos == hpos && hscrollSize == hsize && hscrollViewportSize == hwinsize
      ensures vscrollPos == vpos && vscrollSize == vsize && vscrollViewportSize == vwinsize
      ensures hasModule == old(hasModule)
    {
      hscrollPos, hscrollSize, hscrollViewportSize := hpos, hsize, hwinsize;
      vscrollPos, vscrollSize, vscrollViewportSize := vpos, vsize, vwinsize;
    }
  }

  /** The view manager (dt_view_manager_t). */
  class Manager {
    /** The table of view slots; slots from numViews on are unused. */
    var view: array<View?>
    var currentView: int
    var numViews: int
    /** The view callbacks invoked so far, in order. */
    ghost var trace: seq<Event>
    /** The slot of each loaded handle; that it is a function keeps the handles distinct. */
    ghost var slotOf: map<View, int>
    /** What the manager knows of each loaded slot, in slot order. */
    ghost var loaded: seq<LoadedView>

    ghost predicate Valid()
      reads this`view, this`numViews, this`currentView, this`slotOf, this`loaded, view
    {
      view.Length == MaxModules &&
      0 <= numViews <= MaxModules && |loaded| == numViews &&
      (forall i :: 0 <= i < numViews ==>
        view[i] != null && view[i] in slotOf && slotOf[view[i]] == i && view[i].Loaded() == loaded[i]) &&
      (currentView == NoView || 0 <= currentView < numViews)
    }

    ghost function State(): (s: ManagerState)
      requires Valid()
      reads this`view, this`numViews, this`currentView, this`slotOf, this`loaded, view
      ensures WellFormed(s) && |s.views| == numViews && s.current == currentView
    {
      ManagerState(loaded, currentView)
    }

    /** init: an empty table and no current view. */
    constructor ()
      ensures Valid() && fresh(view)
      ensures State() == ManagerState([], NoView) && trace == []
    {
      view := new View?[MaxModules];
      currentView := NoView;
      numViews := 0;
      trace := [];
      slotOf := map[];
      loaded := [];
    }

    /** load_module: loads the module into the next free slot and returns that slot, or LoadFailed. */
    method LoadModule(name: string, unit: Option<set<S.Symbol>>) returns (slot: int)
      requires Valid()
      modifies this`trace, this`numViews, this`slotOf, this`loaded, view
      ensures Valid() && view == old(view)
      ensures forall i :: 0 <= i < old(numViews) ==> view[i] == old(view[i])
      ensures var step := LoadStep(old(State()), name, unit);
        State() == step.next && slot == step.result && trace == old(trace) + step.calls
      ensures slot != LoadFailed ==> fresh(view[slot])
      ensures slot != LoadFailed ==> view[slot].hasModule && view[slot].ScrollState() == Unscrolled
    {
      if numViews >= MaxModules {
        return LoadFailed;
      }
      var v := new View.Load(name, unit);
      view[numViews] := v;
      if !v.hasModule {
        return LoadFailed;
      }
      if S.Init in v.symbols {
        trace := trace + [Event(numViews, Call.Init)];
      }
      slot := numViews;
      slotOf := slotOf[v := slot];
      loaded := loaded + [v.Loaded()];
      numViews := numViews + 1;
      assert view[slot] == v;
    }

    /** switch: returns Accepted when view k became current, and otherwise leaves everything as it was. */
    method Switch(k: int, verdict: int) returns (err: int)
      requires Valid()
      modifies this`trace, this`currentView
      ensures Valid() && view == old(view) && numViews == old(numViews)
      ensures var step := SwitchStep(old(State()), k, verdict);
        State() == step.next && err == step.result && trace == old(trace) + step.calls
    {
      if !(0 <= k < numViews) {
        return NoSuchView;
      }
      var target := view[k];
      ghost var probe := Invoke(k, Call.TryEnter, target.symbols);
      err := Accepted;
      if S.TryEnter in target.symbols {
        trace := trace + [Event(k, Call.TryEnter)];
        err := verdict;
      }
      if err != Accepted {
        return;
      }
      ghost var leave: seq<Event> := [];
      if currentView != NoView && currentView != k {
        var outgoing := view[currentView];
        leave := Invoke(currentView, Call.Leave, outgoing.symbols);
        if S.Leave in outgoing.symbols {
          trace := trace + [Event(currentView, Call.Leave)];
        }
      }
      ghost var enter := Invoke(k, Call.Enter, target.symbols);
      if S.Enter in target.symbols {
        trace := trace + [Event(k, Call.Enter)];
      }
      assert trace == old(trace) + (probe + leave + enter);
      currentView := k;
    }

    /** Forwards one call to the current view, if it exports the callback; `reply` is what the callback returns. */
    method Dispatch(c: HostCall, reply: int) returns (r: int)
      requires Valid()
      modifies this`trace
      ensures Valid() && view == old(view) && numViews == old(numViews) && currentView == old(currentView)
      ensures State() == old(State())
      ensures r == Reply(old(State()), c, reply) && trace == old(trace) + Forward(old(State()), c)
    {
      r := NotHandled;
      if currentView != NoView {
        var v := view[currentView];
        if SymbolOf(c) in v.symbols {
          trace := trace + [Event(currentView, c)];
          r := reply;
        }
      }
    }

    /** expose: the current view draws itself, reading its own scroll bars. */
    method Expose(width: int, height: int, pointerX: int, pointerY: int)
      requires Valid()
      modifies this`trace
      ensures Valid() && view == old(view) && numViews == old(numViews) && currentView == old(currentView)
      ensures State() == old(State())
      ensures currentView == NoView ==> trace == old(trace)
      ensures currentView != NoView ==>
        var bars := view[currentView].ScrollState();
        trace == old(trace) + Forward(old(State()), Call.Expose(width, height, pointerX, pointerY, bars))
    {
      if currentView != NoView {
        var bars := view[currentView].ScrollState();
        var _ := Dispatch(Call.Expose(width, height, pointerX, pointerY, bars), NotHandled);
      }
    }

    /** reset: the current view restores its default appearance. */
    method Reset()
      requires Valid()
      modifies this`trace
      ensures Valid() && view == old(view) && numViews == old(numViews) && currentView == old(currentView)
      ensures State() == old(State()) && trace == old(trace) + Forward(old(State()), Call.Reset)
    {
      var _ := Dispatch(Call.Reset, NotHandled);
    }

    method MouseLeave(reply: int)
      requires Valid()
      modifies this`trace
      ensures Valid() && view == old(view) && numViews == old(numViews) && currentView == old(currentView)
      ensures State() == old(State()) && trace == old(trace) + Forward(old(State()), Call.MouseLeave)
    {
      var _ := Dispatch(Call.MouseLeave, reply);
    }

    method MouseMoved(x: Double, y: Double, which: int, reply: int)
      requires Valid()
      modifies this`trace
      ensures Valid() && view == old(view) && numViews == old(numViews) && currentView == old(currentView)
      ensures State() == old(State()) && trace == old(trace) + Forward(old(State()), Call.MouseMoved(x, y, which))
    {
      var _ := Dispatch(Call.MouseMoved(x, y, which), reply);
    }

    method ButtonReleased(x: Double, y: Double, which: int, state: bv32, reply: int) returns (handled: int)
      requires Valid()
      modifies this`trace
      ensures Valid() && view == old(view) && numViews == old(numViews) && currentView == old(currentView)
      ensures State() == old(State())
      ensures var c := Call.ButtonReleased(x, y, which, state);
        handled == Reply(old(State()), c, reply) && trace == old(trace) + Forward(old(State()), c)
    {
      handled := Dispatch(Call.ButtonReleased(x, y, which, state), reply);
    }

    method ButtonPressed(x: Double, y: Double, which: int, kind: int, state: bv32, reply: int) returns (handled: int)
      requires Valid()
      modifies this`trace
      ensures Valid() && view == old(view) && numViews == old(numViews) && currentView == old(currentView)
      ensures State() == old(State())
      ensures var c := Call.ButtonPressed(x, y, which, kind, state);
        handled == Reply(old(State()), c, reply) && trace == old(trace) + Forward(old(State()), c)
    {
      handled := Dispatch(Call.ButtonPressed(x, y, which, kind, state), reply);
    }

    method KeyPressed(key: bv16, reply: int) returns (handled: int)
      requires Valid()
      modifies this`trace
      ensures Valid() && view == old(view) && numViews == old(numViews) && currentView == old(currentView)
      ensures State() == old(State())
      ensures handled == Reply(old(State()), Call.KeyPressed(key), reply)
      ensures trace == old(trace) + Forward(old(State()), Call.KeyPressed(key))
    {
      handled := Dispatch(Call.KeyPressed(key), reply);
    }

    method Configure(width: int, height: int)
      requires Valid()
      modifies this`trace
      ensures Valid() && view == old(view) && numViews == old(numViews) && currentView == old(currentView)
      ensures State() == old(State()) && trace == old(trace) + Forward(old(State()), Call.Configure(width, height))
    {
      var _ := Dispatch(Call.Configure(width, height), NotHandled);
    }

    method Scrolled(x: Double, y: Double, up: int)
      requires Valid()
      modifies this`trace
      ensures Valid() && view == old(view) && numViews == old(numViews) && currentView == old(currentView)
      ensures State() == old(State()) && trace == old(trace) + Forward(old(State()), Call.Scrolled(x, y, up))
    {
      var _ := Dispatch(Call.Scrolled(x, y, up), NotHandled);
    }

    method BorderScrolled(x: Double, y: Double, border: int, up: int)
      requires Valid()
      modifies this`trace
      ensures Valid() && view == old(view) && numViews == old(numViews) && currentView == old(currentView)
      ensures State() == old(State())
      ensures trace == old(trace) + Forward(old(State()), Call.BorderScrolled(x, y, border, up))
    {
      var _ := Dispatch(Call.BorderScrolled(x, y, border, up), NotHandled);
    }

    /** name: the current view's translated name; `translated` is what its name callback returns. */
    method Name(translated: string) returns (name: string)
      requires Valid()
      modifies this`trace
      ensures Valid() && view == old(view) && numViews == old(numViews) && currentView == old(currentView)
      ensures State() == old(State())
      ensures name == ViewName(old(State()), translated) && trace == old(trace) + Forward(old(State()), Call.Name)
    {
      if currentView == NoView {
        return [];
      }
      var v := view[currentView];
      name := v.moduleName;
      if S.Name in v.symbols {
        var _ := Dispatch(Call.Name, NotHandled);
        name := translated;
      }
    }

    /** cleanup: unloads every loaded view in slot order, each one's cleanup callback first. */
    method Cleanup()
      requires Valid()
      requires forall i :: 0 <= i < numViews ==> view[i].hasModule
      modifies this`trace, set i | 0 <= i < numViews :: view[i]
      ensures Valid() && view == old(view) && numViews == old(numViews) && currentView == old(currentView)
      ensures State() == old(State())
      ensures forall i :: 0 <= i < numViews ==> !view[i].hasModule
      ensures trace == old(trace) + CleanupCalls(old(State()).views, numViews)
    {
      var k := 0;
      while k < numViews
        invariant 0 <= k <= numViews
        invariant forall i :: 0 <= i < numViews ==> view[i].hasModule == (k <= i)
        invariant trace == old(trace) + CleanupCalls(loaded, k)
      {
        UnloadSlot(k);
        k := k + 1;
      }
    }

    /** Unloads the view in slot k: its cleanup callback runs, then its unit is released. */
    method UnloadSlot(k: int)
      requires Valid() && 0 <= k < numViews && view[k].hasModule
      modifies this`trace, view[k]
      ensures Valid() && State() == old(State())
      ensures !view[k].hasModule && view[k].ScrollState() == old(view[k].ScrollState())
      ensures forall i :: 0 <= i < numViews && i != k ==> view[i].hasModule == old(view[i].hasModule)
      ensures trace == old(trace) + Invoke(k, Call.Cleanup, view[k].symbols)
    {
      var v := view[k];
      if S.Cleanup in v.symbols {
        trace := trace + [Event(k, Call.Cleanup)];
      }
      v.Unload();
      forall i | 0 <= i < numViews && i != k
        ensures view[i].hasModule == old(view[i].hasModule)
      {
        assert slotOf[view[i]] != slotOf[v];
      }
    }
  }

  /** Two views; one switch accepted, one refused by the target's try_enter. */
  method SwitchScenario()
  {
    var vm := new Manager();
    var exported := {S.TryEnter, S.Enter, S.Leave};
    var a := vm.LoadModule("lighttable", Some(exported));
    var b := vm.LoadModule("darkroom", Some(exported));
    assert a == 0 && b == 1;

    var err := vm.Switch(0, Accepted);
    assert err == Accepted && vm.currentView == 0;

    ghost var before := vm.trace;
    err := vm.Switch(1, Accepted);
    assert err == Accepted && vm.currentView == 1;
    assert vm.trace == before + [Event(1, Call.TryEnter), Event(0, Call.Leave), Event(1, Call.Enter)];

    before := vm.trace;
    err := vm.Switch(0, 7);
    assert err == 7 && vm.currentView == 1;
    assert vm.trace == before + [Event(0, Call.TryEnter)];
  }

  /** Two views loaded, then the manager cleaned up: each view's cleanup runs once, in slot order. */
  method CleanupScenario()
  {
    var vm := new Manager();
    var a := vm.LoadModule("lighttable", Some({S.Cleanup}));
    var b := vm.LoadModule("darkroom", Some({S.Cleanup}));
    assert a == 0 && b == 1;
    ghost var before := vm.trace;
    ghost var loaded := vm.State().views;
    assert CleanupCalls(loaded, 2) == [Event(0, Call.Cleanup), Event(1, Call.Cleanup)];
    vm.Cleanup();
    assert vm.trace == before + [Event(0, Call.Cleanup), Event(1, Call.Cleanup)];
    assert !vm.view[0].hasModule && !vm.view[1].hasModule;
  }

  /**
   * The host sets the current view's scroll bars (set_scrollbar on the
   * current view handle); the next expose hands exactly those values to the
   * view, and nothing else changes.
   */
  method ScrollThenExpose(vm: Manager, hpos: Float, hsize: Float, hwinsize: Float,
                          vpos: Float, vsize: Float, vwinsize: Float,
                          width: int, height: int, pointerX: int, pointerY: int)
    requires vm.Valid() && vm.currentView != NoView
    modifies vm`trace, vm.view[vm.currentView]
    ensures vm.Valid() && vm.State() == old(vm.State())
    ensures var drawn := Call.Expose(width, height, pointerX, pointerY,
                                     Scrollbars(vsize, vwinsize, vpos, hsize, hwinsize, hpos));
      vm.trace == old(vm.trace) + Forward(old(vm.State()), drawn)
  {
    var v := vm.view[vm.currentView];
    v.SetScrollbar(hpos, hsize, hwinsize, vpos, vsize, vwinsize);
    vm.Expose(width, height, pointerX, pointerY);
  }
}
