/** Values shared by every component of the behaviour script. */
module Common {

  /** A value that may be missing: a DOM lookup that found nothing, a parse that threw. */
  datatype Option<+T> = None | Some(value: T)

  /** What a handler asks the browser to do with the current page. */
  datatype Navigation =
    | NavigateTo(url: string)  // `navigateToPage(url)`: fade out, then load url
    | HistoryBack              // `window.history.back()`
}
