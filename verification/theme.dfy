/**
 The theme picker's title lookup (script.js, lines 13-18 and 73-81): a selected
 theme id sets the page title from a fixed table, falling back to a default title.
 */
module Theme {
  import opened Optional

  /** The fixed table of theme ids and their titles. */
  const Titles: map<string, string> := map[
    "theme-focus"  := "🧘 ZenBoard",
    "theme-hype"   := "⚡ PowerGrid",
    "theme-hacker" := "💻 Terminal Todo",
    "theme-flirty" := "💖 RizzList"
  ]

  /** The id of the theme the "rizz up" command switches to. */
  const FlirtyTheme: string := "theme-flirty"

  /** The title shown for an id that is not in the table. */
  const DefaultTitle: string := "🚀 SlayList"

  /** The title after selecting `sel`: `None` (title unchanged) for the empty
      selection, the table's title for a known id, the default title otherwise. */
  function TitleFor(sel: string): (r: Option<string>)
    ensures r.None? <==> sel == ""
    ensures sel in Titles ==> r == Some(Titles[sel])
    ensures sel != "" && sel !in Titles ==> r == Some(DefaultTitle)
  {
    if sel == "" then None
    else if sel in Titles then Some(Titles[sel])
    else Some(DefaultTitle)
  }

  /** Every title that can be shown is one of the table's titles or the default. */
  lemma TitleIsKnown(sel: string)
    ensures TitleFor(sel).Some? ==> TitleFor(sel).value in Titles.Values + {DefaultTitle}
  {
  }

}
