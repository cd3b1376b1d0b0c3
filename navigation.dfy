/** Where a screen sends the user, and the toast it asks the next screen to show. */
module Navigation {
  /** The kind of toast passed in the router state; the message texts are not modelled. */
  datatype Toast = NoToast | SuccessToast | WarningToast

  datatype Nav = Nav(route: string, toast: Toast)
}
