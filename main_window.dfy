/** The main window's own logic: which loader an opened file goes to, how
    the window title is composed from the frame's title, the start-up
    configuration, the palette menus and the cutoff dialog. The frame
    itself is recorded by where it came from; widgets, settings and dialogs
    are reduced to the values they hand over. */
module Window {
  import opened Common
  import opened Palettes
  import RawDialog

  /** The two file loaders the Open action can call. */
  datatype Loader = CubeLoader | FrameFileLoader

  /** A file goes to the cube loader exactly when its name ends with
      ".cube" (case-sensitive), and to the frame loader otherwise. */
  function LoaderFor(filename: string): (l: Loader)
    ensures l == CubeLoader <==> EndsWith(filename, ".cube")
    ensures l == FrameFileLoader <==> !EndsWith(filename, ".cube")
  {
    if EndsWith(filename, ".cube") then CubeLoader else FrameFileLoader
  }

  /** `default_title + (!title.isEmpty() ? ": " + title : "")`. */
  function WindowTitle(defaultTitle: string, title: string): string
  {
    defaultTitle + (if title != [] then ": " + title else "")
  }

  /** The composed title always starts with the default title, is exactly
      the default title for an untitled frame, and gives the frame's title
      back after the ": " separator. */
  lemma WindowTitleShape(defaultTitle: string, title: string)
    ensures var t := WindowTitle(defaultTitle, title);
      && |t| >= |defaultTitle| && t[..|defaultTitle|] == defaultTitle
      && (title == [] <==> t == defaultTitle)
      && (title != [] ==> t[|defaultTitle|..] == ": " + title)
  {
  }

  /** Different frame titles give different window titles. */
  lemma WindowTitleInjective(defaultTitle: string, a: string, b: string)
    requires WindowTitle(defaultTitle, a) == WindowTitle(defaultTitle, b)
    ensures a == b
  {
    var ta, tb := WindowTitle(defaultTitle, a), WindowTitle(defaultTitle, b);
    if a != [] && b != [] {
      assert ta[|defaultTitle| + 2..] == a;
      assert tb[|defaultTitle| + 2..] == b;
    }
  }

  /** Where the displayed frame came from. */
  datatype FrameOrigin =
    | NoFrame
    | Generated(name: string)
    | Loaded(loader: Loader, path: string)

  /** The opacity menu: the default table, `x^n`, or fully opaque. */
  datatype OpacityChoice = OpDefault | OpPow(n: nat) | OpNone

  datatype PaletteChoice = PalRainbow | PalMonochrome

  /** `MainWindow` with the state it hands to the GL widget. */
  class MainWindow {
    const defaultTitle: string
    var title: string
    var frame: FrameOrigin
    var colors: seq<Color>
    var opacity: seq<real>
    var cutoff: (real, real)

    /** The title always starts with the title the window was built with. */
    ghost predicate Valid()
      reads this
    {
      |title| >= |defaultTitle| && title[..|defaultTitle|] == defaultTitle
    }

    /** The constructor: `default_title` is the designed title; the widget
        starts without a frame and with its own cutoff. */
    constructor (defaultTitle: string, cutoff: (real, real))
      ensures Valid()
      ensures this.defaultTitle == defaultTitle && title == defaultTitle
      ensures frame == NoFrame && colors == [] && opacity == [] && this.cutoff == cutoff
    {
      this.defaultTitle := defaultTitle;
      title := defaultTitle;
      frame := NoFrame;
      colors := [];
      opacity := [];
      this.cutoff := cutoff;
    }

    /** `setFrame(frame, title)`. */
    method SetFrame(origin: FrameOrigin, frameTitle: string)
      requires Valid()
      modifies this
      ensures Valid()
      ensures title == WindowTitle(defaultTitle, frameTitle) && frame == origin
      ensures colors == old(colors) && opacity == old(opacity) && cutoff == old(cutoff)
    {
      WindowTitleShape(defaultTitle, frameTitle);
      title := WindowTitle(defaultTitle, frameTitle);
      frame := origin;
    }

    /** `initGlWidget()`: the sector frame, the rainbow palette and the
        default opacity table (the stored background colour is left out). */
    method InitGlWidget()
      requires Valid()
      modifies this
      ensures Valid()
      ensures frame == Generated("Sector") && title == WindowTitle(defaultTitle, "Sector")
      ensures colors == RainbowPalette() && opacity == DefaultOpacityPalette()
      ensures cutoff == old(cutoff)
    {
      SetFrame(Generated("Sector"), "Sector");
      colors := RainbowPalette();
      opacity := DefaultOpacityPalette();
    }

    /** `on_actionOpen_triggered()`: a cancelled dialog (a null name)
        changes nothing; otherwise the chosen loader's frame is shown under
        the file's name. */
    method Open(filename: Option<string>)
      requires Valid()
      modifies this
      ensures Valid()
      ensures filename.None? ==> title == old(title) && frame == old(frame)
      ensures filename.Some? ==>
        && frame == Loaded(LoaderFor(filename.value), filename.value)
        && title == WindowTitle(defaultTitle, RawDialog.BaseName(filename.value))
      ensures colors == old(colors) && opacity == old(opacity) && cutoff == old(cutoff)
    {
      if filename.None? {
        return;
      }
      var f := filename.value;
      if EndsWith(f, ".cube") {
        SetFrame(Loaded(CubeLoader, f), RawDialog.BaseName(f));
      } else {
        SetFrame(Loaded(FrameFileLoader, f), RawDialog.BaseName(f));
      }
    }

    /** The opacity menu slots. */
    method SelectOpacity(choice: OpacityChoice)
      requires Valid()
      modifies this
      ensures Valid()
      ensures choice.OpDefault? ==> opacity == DefaultOpacityPalette()
      ensures choice.OpNone? ==> opacity == NoneOpacityPalette()
      ensures choice.OpPow? ==>
        && |opacity| == 1025
        && (forall i :: 0 <= i <= 1024 ==> opacity[i] == Pow(SampleArg(i, 1024), choice.n))
        && (forall i, j :: 0 <= i <= j <= 1024 ==> opacity[i] <= opacity[j])
      ensures title == old(title) && frame == old(frame) && colors == old(colors) && cutoff == old(cutoff)
    {
      match choice
      case OpDefault =>
        opacity := DefaultOpacityPalette();
      case OpNone =>
        opacity := NoneOpacityPalette();
      case OpPow(n) =>
        opacity := PowOpacityPalette(n);
    }

    /** The colour palette menu slots. */
    method SelectPalette(choice: PaletteChoice)
      requires Valid()
      modifies this
      ensures Valid()
      ensures colors == (if choice == PalRainbow then RainbowPalette() else MonochromePalette())
      ensures forall i :: 0 <= i < |colors| ==> Binary(colors[i])
      ensures title == old(title) && frame == old(frame) && opacity == old(opacity) && cutoff == old(cutoff)
    {
      if choice == PalRainbow {
        colors := RainbowPalette();
      } else {
        colors := MonochromePalette();
      }
    }

    /** `on_actionCutoff_triggered()`: the dialog opens on the current
        cutoff, and only an accepted dialog sets the cutoff, to exactly its
        low and high values. */
    method EditCutoff(accepted: bool, low: real, high: real)
      requires Valid()
      modifies this
      ensures Valid()
      ensures cutoff == (if accepted then (low, high) else old(cutoff))
      ensures title == old(title) && frame == old(frame) && colors == old(colors) && opacity == old(opacity)
    {
      if accepted {
        cutoff := (low, high);
      }
    }
  }
}
