/**
 * The callback symbols a view module may export: the function-pointer
 * members of dt_view_t, which the loader binds by name. A symbol the
 * module does not export stays absent and the manager treats it as a no-op.
 */
module ViewSymbols {

  datatype Symbol =
    | Name
    | Init
    | Cleanup
    | Expose
    | TryEnter
    | Enter
    | Leave
    | Reset
    | MouseLeave
    | MouseMoved
    | ButtonReleased
    | ButtonPressed
    | KeyPressed
    | Configure
    | Scrolled
    | BorderScrolled
}
