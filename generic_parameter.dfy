/** Generic functions, and two ways of giving a window title a default. */
module GenericParameter {
  import opened RustStd

  /** `largest` at `i32`: `a` when `a > b`, otherwise `b`. */
  function Largest(a: int, b: int): (r: int)
    ensures r >= a && r >= b
    ensures r == a || r == b
  {
    if a > b then a else b
  }

  /** `main`: `largest(1, 9)` is 9. */
  lemma LargestOfOneAndNine()
    ensures Largest(1, 9) == 9
  {
  }

  /** `mix`: pair its two arguments; the projections give them back unchanged. */
  function Mix<T, U>(t: T, u: U): (r: (T, U))
    ensures r.0 == t && r.1 == u
  {
    (t, u)
  }

  /** `mix`'s `main`: `mix(1001, b'a')` is the pair `(1001, 97)` of an `i32` and a `u8`. */
  lemma MixMain()
    ensures var n: (int, u8) := Mix(1001, 'a' as int as u8); n.0 == 1001 && n.1 == 97
  {
  }

  /** `Config` with an optional title (generic_parameter.rs lines 42-46). */
  datatype Config = Config(width: nat, height: nat, title: Option<string>)

  /** The window that gets created: the title, width and height it reports. */
  datatype Window = Window(title: string, width: nat, height: nat)

  /** `config.title.unwrap_or_else(|| "Untitled".to_string())`. */
  function WindowTitle(config: Config): (title: string)
    ensures config.title.None? ==> title == "Untitled"
    ensures config.title.Some? ==> title == config.title.value
  {
    match config.title
    case Some(t) => t
    case None => "Untitled"
  }

  /** `create_window`, taking its title from the config or the default. */
  function CreateWindow(config: Config): (w: Window)
    ensures w.title == WindowTitle(config)
    ensures w.width == config.width && w.height == config.height
  {
    Window(WindowTitle(config), config.width, config.height)
  }

  /** `create_window_inner`. */
  function CreateWindowInner(width: nat, height: nat, title: string): (w: Window)
    ensures w.title == title && w.width == width && w.height == height
  {
    Window(title, width, height)
  }

  /**
   * The `create_window!` macro: `title` is `None` for the two-argument arm,
   * which passes "Untitled", and `Some(t)` for the three-argument arm.
   */
  function CreateWindowMacro(width: nat, height: nat, title: Option<string>): (w: Window)
    ensures title.None? ==> w.title == "Untitled"
    ensures title.Some? ==> w.title == title.value
  {
    match title
    case None => CreateWindowInner(width, height, "Untitled")
    case Some(t) => CreateWindowInner(width, height, t)
  }

  /** The macro's default and the `Config` default give the same window. */
  lemma MacroAgreesWithConfig(width: nat, height: nat, title: Option<string>)
    ensures CreateWindowMacro(width, height, title) == CreateWindow(Config(width, height, title))
  {
  }

  /** The two `main`s: 800x600 untitled is "Untitled"; with "My App" it is "My App". */
  lemma MainWindows()
    ensures CreateWindow(Config(800, 600, None)) == Window("Untitled", 800, 600)
    ensures CreateWindow(Config(800, 600, Some("My App"))) == Window("My App", 800, 600)
    ensures CreateWindowMacro(800, 600, None) == Window("Untitled", 800, 600)
    ensures CreateWindowMacro(800, 600, Some("My App")) == Window("My App", 800, 600)
  {
  }
}
