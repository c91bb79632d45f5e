# darktable view manager, modelled in Dafny

darktable's user interface is built from *views*, such as lighttable and
darkroom. Each view is a plugin, loaded from a dynamic library, that exports
optional callbacks. The view manager (`dt_view_manager_t` in
`src/views/view.h`) has three parts:

- a fixed table of `DT_VIEW_MAX_MODULES` (10) view slots;
- the number of slots filled so far, `num_views`;
- the index of the active view, `current_view`.

It does four jobs:

- **Loading.** It loads plugins into the next free slot, while there is space.
- **Switching.** It switches between views by a fixed protocol: ask the target
  (`try_enter`); only if the target accepts, tell the old view to `leave`; then
  `enter` the target and make it current.
- **Dispatching.** It forwards drawing, reset and input events to the active
  view only.
- **Scroll bars.** It stores the scroll bar values that the host sets on a view.

The model has four modules:

- `ViewSymbols` (`view_symbols.dfy`): the callback symbols a view module can
  export.
- `ViewProtocol` (`view_protocol.dfy`): the manager on values. A step function
  per operation gives the new abstract state (the loaded views and
  `current_view`), the value returned, and the sequence of view callbacks
  invoked. Its contracts and lemmas state the protocol.
- `ViewManager` (`view_manager.dfy`): `dt_view_t` and `dt_view_manager_t` as
  classes whose fields are updated in place.
  - `Manager` holds the slot table as an `array<View?>` of length 10, with
    `currentView` and `numViews` beside it.
  - A ghost trace records every callback invoked.
  - Each method is proved to change the state and extend the trace exactly as
    the matching `ViewProtocol` step function says.
- `ViewRuns` (`view_runs.dfy`): sequences of host calls, executed one after
  another, with inductive lemmas about whole runs. These cover the capacity
  bound, slot stability, slot assignment, and the rule that only exported
  callbacks are ever called.

A view's callbacks are not modelled by their bodies. What the manager gets
back from them is an input of the operation:

- what `try_enter` answers;
- what an event handler replies;
- the translated name that `name` returns.

Whether the dynamic unit can be opened, and which symbols it exports, is also
an input. A callback the unit does not export is absent, and calling an absent
callback does nothing. An absent `try_enter` counts as accepting.

The header declares these operations but contains no function bodies. Where
its doc comments say nothing, the model makes these choices:

- `load_module` returns -1 (`LoadFailed`) when it fills no slot; the header
  names only the success value, the slot number.
- `switch` to a slot that holds no loaded view returns `NoSuchView` (1) and
  changes nothing.
- `leave` is called only when a view other than the target is active.
  Switching to the active view calls `try_enter` and `enter` on it again.
- `name` returns the empty string when no view is active. When the active view
  exports no `name` callback, it returns the module name.
- A freshly loaded view's scroll bar fields are zero.
- The comment on `enter` (line 44) speaks of a return value, but the callback
  returns `void`. The model follows the declared type: only `try_enter` can
  refuse a switch.

## Model

| member | source | states |
|---|---|---|
| ViewProtocol.LoadStep | src/views/view.h:93-94 | load_module succeeds exactly when a slot is free and the unit opens. On success it returns the slot it filled, which is `num_views` and below 10; it appends the module there and keeps every earlier slot and `current_view`. On failure nothing changes and no callback runs. The only callback is `init` on the new slot, and it runs when exported. The capacity bound is kept. |
| ViewProtocol.SwitchStep | src/views/view.h:77-78 | switch returns 0 exactly when slot k is loaded and its `try_enter`, if exported, accepts. Otherwise the state is unchanged, at most `try_enter(k)` was called, and the result is `try_enter`'s non-zero answer (or 1 for an unloaded slot). On success `current_view` becomes k and the table is untouched. |
| ViewProtocol.SwitchCalls | src/views/view.h:43-45 | The calls of a switch are `try_enter(new)` first, then `leave(old)`, then `enter(new)`, in strictly that order. `leave` is present on acceptance when the old view exports it, and there are no other calls. Each call goes to a loaded view that exports it. |
| ViewProtocol.Forward | src/views/view.h:79-91 | A dispatched event reaches the active view's callback, and nothing else. It reaches it exactly when a view is active and exports that callback. |
| ViewProtocol.Reply | src/views/view.h:86-88 | An int-returning dispatcher returns the handler's reply when the handler ran, and 0 otherwise. |
| ViewProtocol.ViewName | src/views/view.h:75-76 | name gives the active view's translated name; the module name if the view exports no name callback; and the empty string with no active view. |
| ViewProtocol.CleanupCalls | src/views/view.h:73 | Unloading the first n slots makes at most n calls, each of them a cleanup call to one of those n slots. |
| ViewProtocol.CleanupCallsExact | src/views/view.h:97-98 | The cleanup calls are exactly those of the unloaded views that export cleanup. |
| ViewProtocol.CleanupCallsOrdered | src/views/view.h:73 | Cleanup calls go out in strictly increasing slot order. |
| ViewManager.View.Load | src/views/view.h:96 | A loaded handle binds its module name and callback table. It holds the unit exactly when the unit opened, and its scroll bars start at zero. |
| ViewManager.View.Unload | src/views/view.h:97-98 | Unloading releases the unit and keeps the scroll bars. |
| ViewManager.View.SetScrollbar | src/views/view.h:99-100 | set_scrollbar stores exactly the six given values into the `hscroll_*`/`vscroll_*` fields and leaves the module handle as it was. |
| ViewManager.Manager.constructor | src/views/view.h:72 | init gives an empty table and no current view. |
| ViewManager.Manager.State | src/views/view.h:67-68 | The table's abstract value keeps `num_views` within 0..10, and `current_view` names a loaded slot or none. |
| ViewManager.Manager.LoadModule | src/views/view.h:93-94 | Fills `view[num_views]` and moves the state, the returned slot and the trace as LoadStep says. Earlier slots are untouched. A filled slot holds a new handle that holds its unit and has zero scroll bars. |
| ViewManager.Manager.Switch | src/views/view.h:77-78 | Updates `current_view`, returns, and extends the trace as SwitchStep says. |
| ViewManager.Manager.Dispatch | src/views/view.h:84-91 | Forwards one host event (never init, cleanup or a switch callback) to the active view as Forward and Reply say, and leaves the table and `current_view` as they were. |
| ViewManager.Manager.Expose | src/views/view.h:79-80 | expose hands the active view its own current scroll bar values with the size and pointer. It changes neither `current_view` nor `num_views`. |
| ViewManager.Manager.Reset | src/views/view.h:81-82 | reset reaches only the active view, and changes neither `current_view` nor `num_views`. |
| ViewManager.Manager.MouseLeave | src/views/view.h:84 | Forwarded to the active view only; its reply is dropped. |
| ViewManager.Manager.MouseMoved | src/views/view.h:85 | Forwarded with the position and button to the active view only; its reply is dropped. |
| ViewManager.Manager.ButtonReleased | src/views/view.h:86 | Forwarded to the active view only; returns its reply, or 0 when no handler ran. |
| ViewManager.Manager.ButtonPressed | src/views/view.h:87 | Forwarded to the active view only; returns its reply, or 0 when no handler ran. |
| ViewManager.Manager.KeyPressed | src/views/view.h:88 | Forwarded to the active view only; returns its reply, or 0 when no handler ran. |
| ViewManager.Manager.Configure | src/views/view.h:89 | Forwarded with the new size to the active view only. |
| ViewManager.Manager.Scrolled | src/views/view.h:90 | Forwarded to the active view only. |
| ViewManager.Manager.BorderScrolled | src/views/view.h:91 | Forwarded with the border to the active view only. |
| ViewManager.Manager.Name | src/views/view.h:75-76 | Returns what ViewName says, and calls the name callback only when the active view exports it. |
| ViewManager.Manager.Cleanup | src/views/view.h:73 | Releases every loaded view's unit, changing only the loaded handles. The trace gains exactly the cleanup calls of CleanupCalls, in slot order, and the table is unchanged. |
| ViewManager.Manager.UnloadSlot | src/views/view.h:97-98 | unload_module on one slot: its cleanup callback if exported, then its unit is released. Its scroll bars, the other slots' units, the table and `current_view` are kept. |
| ViewManager.ScrollThenExpose | src/views/view.h:99-100 | After set_scrollbar on the active view, the next expose passes exactly those six values to it, and the manager state is unchanged. |
| ViewRuns.Apply | src/views/view.h:67-68 | No host call removes or changes a filled slot. Only load_module adds one, and the capacity bound is kept. |
| ViewRuns.RunWellFormed | src/views/view.h:60 | Over any sequence of host calls, `num_views` stays within 0..10 and `current_view` is a loaded slot or none. |
| ViewRuns.RunKeepsSlots | src/views/view.h:67-68 | Over any run, slots once filled keep their view, so `num_views` never decreases. |
| ViewRuns.RunCountsViews | src/views/view.h:93-94 | `num_views` grows by exactly the number of load_module calls that returned a slot. |
| ViewRuns.RunLoadSlots | src/views/view.h:93-94 | Every slot a load_module returns is a new slot below 10, and at the end of the run it still holds the module that call loaded. |
| ViewRuns.RunLoadSlotsIncrease | src/views/view.h:93-94 | Successful loads return strictly increasing slots, so no two of them share a slot. |
| ViewRuns.RunFullRefusesLoads | src/views/view.h:93-94 | Once all 10 slots are filled, every later load_module fails. |
| ViewRuns.ApplyCallsExported | src/views/view.h:39-56 | Each host call invokes only callbacks that a loaded view exports. |
| ViewRuns.CallsExportedAppend | src/views/view.h:67-68 | Calls that went to exporting views of the table stay valid after further calls, because the table only grows. |
| ViewRuns.RunCallsExported | src/views/view.h:39-56 | Over any run, every callback invoked belongs to a loaded slot and is exported by that slot's view. An absent callback is never called. |

## Left out

- Opening the dynamic unit and binding its symbols (GModule, in
  `dt_view_load_module`): foreign code. Whether the unit opens, and which
  symbols it exports, are inputs of the load.
- The cairo context of `expose` and all drawing: an opaque foreign object. The
  model states only which view is asked to draw, and with what size, pointer
  and scroll bars.
- The bodies of the view plugins, their `data` pointer and what `init` and
  `cleanup` do to it: not part of this model. Each callback invocation is
  recorded in a ghost trace.
- gettext translation in `name`: the translated name is an input.
- The `module_name[64]` C-string buffer: the name is an unbounded string, so
  truncation to 63 characters is not modelled.
- Floating-point values: the scroll bar fields (`float`) and pointer positions
  (`double`) are kept as bit patterns (`bv32`, `bv64`). The manager stores and
  passes them on without arithmetic.
- The GTK event sources that call the dispatchers.
- Preloading views in `init`: the header does not say which views `init`
  loads. The model's constructor yields an empty table, and loads are separate
  calls.
- ViewManager.Manager.Expose: width, height and pointer coordinates are
  unbounded `int` rather than `int32_t`. The manager only passes them through,
  so 32-bit wrap-around plays no part.
- ViewManager.Manager.LoadModule: each load makes a new `View` object that the
  slot refers to, where C fills the `dt_view_t` struct embedded in the array in
  place. Aliasing between slots is excluded by the ghost slot map.
- ViewManager.Manager.Cleanup: requires that every loaded view still holds its
  unit, because the header gives no account of unloading twice. LoadModule
  establishes this for every slot it fills.
- ViewManager.Manager.Dispatch: after Cleanup, `current_view` still names a
  view whose unit has been released. The model does not exclude dispatching
  to it; the header does not say what that does, and in C it would call into
  a closed library.
