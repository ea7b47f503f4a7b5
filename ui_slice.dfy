/**
 * The client's `ui` slice: colour theme, sidebar, the open modal, the toast list and
 * the socket flag. The theme read from and written to local storage, and the `dark`
 * class on the document, are not modelled; the stored theme and each new toast's id
 * are parameters.
 */
module UiSlice {
  import opened Wrappers
  import opened JsString
  import opened Seqs

  datatype ToastKind = Success | Error | Warning | Info

  datatype Toast = Toast(id: string, kind: ToastKind, title: string, description: Option<string>)

  /** The payload of `addToast`: a toast without its id. */
  datatype ToastContent = ToastContent(kind: ToastKind, title: string, description: Option<string>)

  /** The theme is held as the string it was read or set as. */
  datatype UiState = UiState(
    theme: string,
    sidebarOpen: bool,
    modalOpen: Option<string>,
    toasts: seq<Toast>,
    isSocketConnected: bool)

  /** The state the slice starts in, given the theme found in local storage, if any. */
  function Initial(storedTheme: Option<string>): (s: UiState)
    ensures s.theme == if Truthy(storedTheme) then storedTheme.value else "dark"
    ensures s.sidebarOpen && s.modalOpen.None? && s.toasts == [] && !s.isSocketConnected
  {
    UiState(if Truthy(storedTheme) then storedTheme.value else "dark", true, None, [], false)
  }

  predicate ValidTheme(t: string) {
    t == "light" || t == "dark"
  }

  datatype Action =
    | ToggleTheme
    | SetTheme(theme: string)
    | ToggleSidebar
    | SetSidebarOpen(open: bool)
    | OpenModal(modal: string)
    | CloseModal
    | AddToast(content: ToastContent, newId: string)
    | RemoveToast(removeId: string)
    | ClearToasts
    | SetSocketConnected(connected: bool)

  function Toggled(theme: string): string {
    if theme == "light" then "dark" else "light"
  }

  /** Whether a toast is kept by `removeToast(id)`. */
  function KeepsToast(id: string): Toast -> bool {
    (t: Toast) => t.id != id
  }

  function Reduce(s: UiState, a: Action): UiState {
    match a
    case ToggleTheme => s.(theme := Toggled(s.theme))
    case SetTheme(t) => s.(theme := t)
    case ToggleSidebar => s.(sidebarOpen := !s.sidebarOpen)
    case SetSidebarOpen(b) => s.(sidebarOpen := b)
    case OpenModal(m) => s.(modalOpen := Some(m))
    case CloseModal => s.(modalOpen := None)
    case AddToast(c, id) => s.(toasts := s.toasts + [Toast(id, c.kind, c.title, c.description)])
    case RemoveToast(id) => s.(toasts := Filter(s.toasts, KeepsToast(id)))
    case ClearToasts => s.(toasts := [])
    case SetSocketConnected(b) => s.(isSocketConnected := b)
  }

  /** The theme stays "light" or "dark" when it starts so and is only ever set to one of them. */
  lemma ThemeStaysValid(s: UiState, a: Action)
    requires ValidTheme(s.theme)
    requires a.SetTheme? ==> ValidTheme(a.theme)
    ensures ValidTheme(Reduce(s, a).theme)
  {
  }

  /** `toggleTheme` swaps light and dark, and toggling twice restores the theme. */
  lemma ToggleThemeTwice(s: UiState)
    requires ValidTheme(s.theme)
    ensures Reduce(s, ToggleTheme).theme != s.theme
    ensures Reduce(Reduce(s, ToggleTheme), ToggleTheme) == s
  {
  }

  /** Any other stored theme leaves the pair after the first toggle and is not restored. */
  lemma ToggleThemeFromOther(s: UiState)
    requires !ValidTheme(s.theme)
    ensures Reduce(s, ToggleTheme).theme == "light"
    ensures Reduce(Reduce(s, ToggleTheme), ToggleTheme).theme == "dark"
  {
  }

  lemma ToggleSidebarTwice(s: UiState)
    ensures Reduce(Reduce(s, ToggleSidebar), ToggleSidebar) == s
  {
  }

  /** `addToast` appends one toast with the payload and the given id, and keeps the earlier ones. */
  lemma AddToastAppends(s: UiState, c: ToastContent, id: string)
    ensures var r := Reduce(s, AddToast(c, id)).toasts;
      |r| == |s.toasts| + 1 && r[..|s.toasts|] == s.toasts
      && r[|s.toasts|] == Toast(id, c.kind, c.title, c.description)
  {
  }

  /**
   * `removeToast` keeps, in their order, exactly the toasts with a different id (every
   * toast with the id goes), is a no-op for an absent id, and removing twice is removing once.
   */
  lemma {:induction false} RemoveToastEffect(s: UiState, id: string)
    ensures var r := Reduce(s, RemoveToast(id)).toasts;
      && Sublist(r, s.toasts)
      && (forall t :: t in r <==> t in s.toasts && t.id != id)
      && ((forall i :: 0 <= i < |s.toasts| ==> s.toasts[i].id != id) ==> r == s.toasts)
      && Reduce(Reduce(s, RemoveToast(id)), RemoveToast(id)) == Reduce(s, RemoveToast(id))
  {
    var r := Filter(s.toasts, KeepsToast(id));
    FilterIsSublist(s.toasts, KeepsToast(id));
    forall t ensures t in r <==> t in s.toasts && t.id != id {
      FilterMembership(s.toasts, KeepsToast(id), t);
    }
    if forall i :: 0 <= i < |s.toasts| ==> s.toasts[i].id != id {
      FilterKeepsAll(s.toasts, KeepsToast(id));
    }
    FilterAllPass(s.toasts, KeepsToast(id));
    FilterKeepsAll(r, KeepsToast(id));
  }

  /** Each reducer changes at most its own field. */
  lemma ReducersAreLocal(s: UiState, a: Action)
    ensures !a.ToggleTheme? && !a.SetTheme? ==> Reduce(s, a).theme == s.theme
    ensures !a.ToggleSidebar? && !a.SetSidebarOpen? ==> Reduce(s, a).sidebarOpen == s.sidebarOpen
    ensures !a.OpenModal? && !a.CloseModal? ==> Reduce(s, a).modalOpen == s.modalOpen
    ensures !a.AddToast? && !a.RemoveToast? && !a.ClearToasts? ==> Reduce(s, a).toasts == s.toasts
    ensures !a.SetSocketConnected? ==> Reduce(s, a).isSocketConnected == s.isSocketConnected
  {
  }

  /** The slice as a store whose reducers assign its fields in place. */
  class UiStore {
    var theme: string
    var sidebarOpen: bool
    var modalOpen: Option<string>
    var toasts: seq<Toast>
    var isSocketConnected: bool

    function State(): UiState
      reads this
    {
      UiState(theme, sidebarOpen, modalOpen, toasts, isSocketConnected)
    }

    constructor (storedTheme: Option<string>)
      ensures State() == Initial(storedTheme)
    {
      theme := if Truthy(storedTheme) then storedTheme.value else "dark";
      sidebarOpen := true;
      modalOpen := None;
      toasts := [];
      isSocketConnected := false;
    }

    method ToggleThemeReducer()
      modifies this
      ensures State() == Reduce(old(State()), ToggleTheme)
      ensures theme == (if old(theme) == "light" then "dark" else "light")
    {
      theme := if theme == "light" then "dark" else "light";
    }

    method SetThemeReducer(t: string)
      modifies this
      ensures State() == Reduce(old(State()), SetTheme(t))
      ensures theme == t
    {
      theme := t;
    }

    method ToggleSidebarReducer()
      modifies this
      ensures State() == Reduce(old(State()), ToggleSidebar)
      ensures sidebarOpen == !old(sidebarOpen)
    {
      sidebarOpen := !sidebarOpen;
    }

    method SetSidebarOpenReducer(b: bool)
      modifies this
      ensures State() == Reduce(old(State()), SetSidebarOpen(b))
      ensures sidebarOpen == b
    {
      sidebarOpen := b;
    }

    method OpenModalReducer(m: string)
      modifies this
      ensures State() == Reduce(old(State()), OpenModal(m))
      ensures modalOpen == Some(m)
    {
      modalOpen := Some(m);
    }

    method CloseModalReducer()
      modifies this
      ensures State() == Reduce(old(State()), CloseModal)
      ensures modalOpen == None
    {
      modalOpen := None;
    }

    method AddToastReducer(c: ToastContent, id: string)
      modifies this
      ensures State() == Reduce(old(State()), AddToast(c, id))
      ensures toasts == old(toasts) + [Toast(id, c.kind, c.title, c.description)]
    {
      toasts := toasts + [Toast(id, c.kind, c.title, c.description)];
    }

    method RemoveToastReducer(id: string)
      modifies this
      ensures State() == Reduce(old(State()), RemoveToast(id))
      ensures forall t :: t in toasts <==> t in old(toasts) && t.id != id
    {
      RemoveToastEffect(State(), id);
      toasts := Filter(toasts, KeepsToast(id));
    }

    method ClearToastsReducer()
      modifies this
      ensures State() == Reduce(old(State()), ClearToasts)
      ensures toasts == []
    {
      toasts := [];
    }

    method SetSocketConnectedReducer(b: bool)
      modifies this
      ensures State() == Reduce(old(State()), SetSocketConnected(b))
      ensures isSocketConnected == b
    {
      isSocketConnected := b;
    }
  }
}
