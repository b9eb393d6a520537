// How a document's printing width is chosen once the width available to
// its pane is known (the pane printer's render options).

module RenderOptions {

  /** How to choose the document width. */
  datatype WidthStrategy =
    | Full               // all of the available width
    | Fixed(width: nat)  // this width, whatever is available
    | NoMoreThan(width: nat)  // this width, or less if less is available

  /**
   * The width to print at. Only `Fixed` may exceed what is available;
   * `NoMoreThan` gives the smaller of its width and the available one.
   */
  function Choose(strategy: WidthStrategy, available: nat): (w: nat)
    ensures !strategy.Fixed? ==> w <= available
    ensures strategy.Full? ==> w == available
    ensures strategy.Fixed? ==> w == strategy.width
    ensures strategy.NoMoreThan? ==> w <= strategy.width && (w == strategy.width || w == available)
  {
    match strategy
    case Full => available
    case Fixed(width) => width
    case NoMoreThan(width) => if width <= available then width else available
  }
}
