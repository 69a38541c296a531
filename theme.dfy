/** The colour scheme: the value kept under the `theme` key and the `data-theme` attribute the
    page shows, and the toggle between them. */
module Theme {
  import opened Wrappers

  datatype Theme = Light | Dark

  /** The text written to the `data-theme` attribute and to storage. */
  function Name(t: Theme): (s: string)
    ensures s == "dark" <==> t == Dark
    ensures s == "light" <==> t == Light
  {
    match t
    case Light => "light"
    case Dark => "dark"
  }

  /** `initTheme`'s reading of the stored value: `getItem('theme') || 'light'`, then anything
      other than `'dark'` shows as light. A missing key and the empty string both give light. */
  function FromStored(stored: Option<string>): (t: Theme)
    ensures t == Dark <==> stored == Some("dark")
  {
    var s := if stored.Some? && stored.value != "" then stored.value else "light";
    if s == "dark" then Dark else Light
  }

  /** The toggle's `cur === 'dark' ? 'light' : 'dark'`, read off the attribute the page shows. */
  function Flip(t: Theme): (r: Theme)
    ensures r != t
  {
    if Name(t) == "dark" then Light else Dark
  }

  /** Two toggles restore the original theme. */
  lemma FlipTwice(t: Theme)
    ensures Flip(Flip(t)) == t
  {
  }

  /** Storing a theme's name and reloading the page shows that theme again. */
  lemma StoredRoundTrip(t: Theme)
    ensures FromStored(Some(Name(t))) == t
  {
  }
}
