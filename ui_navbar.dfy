/** `Navbar`: a title and a dark or light colour scheme. */
module UiNavbar {
  import opened Wrappers

  const BASE_CLASSES := "w-full px-6 py-4 flex items-center justify-between border-b"
  const DARK_CLASSES := "bg-gray-900 text-white border-gray-700"
  const LIGHT_CLASSES := "bg-white text-gray-900 border-gray-200"

  datatype Props = Props(title: Option<string>, variant: Option<string>)

  datatype View = View(title: string, dark: bool)

  /** The rendered bar: the title defaults to "App"; only the variant "dark" is dark. */
  function Render(p: Props): (r: View)
    ensures p.title.None? ==> r.title == "App"
    ensures p.title.Some? ==> r.title == p.title.value
    ensures r.dark <==> p.variant == Some("dark")
  {
    View(p.title.GetOr("App"), p.variant.GetOr("default") == "dark")
  }

  /** The class attribute: the base classes, then the scheme's. */
  function ClassName(v: View): (c: string)
    ensures |c| > |BASE_CLASSES| && c[..|BASE_CLASSES|] == BASE_CLASSES
  {
    BASE_CLASSES + " " + (if v.dark then DARK_CLASSES else LIGHT_CLASSES)
  }
}
