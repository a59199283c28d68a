/** What a page renders for one application: the label of its action button and the
    content of its status cell. Markup and styling are not modelled. */
module Views {

  /** The status cell: a link to the running application, the error in red, the
      progress text of a pending load, or nothing. */
  datatype RunCell =
    | RunLink(href: string)
    | ErrorSpan(message: string)
    | Progress(text: string)
    | Blank

  datatype View = View(actionText: string, run: RunCell)

  const LoadAction := "Load application"
  const UnloadAction := "Unload application"
}
