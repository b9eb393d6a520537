// How a document's printing width is chosen once the width available to
// its pane is known (the pane module's printing options).

module PrintingOptions {

  /** How to choose the document width. */
  datatype WidthStrategy =
    | Full               // all of the available width in the pane
    | Fixed(width: nat)  // this width; a narrower pane truncates the document
    | NoMoreThan(width: nat)  // this width or the pane's, whichever is smaller

  /**
   * `choose_width`: only `Fixed` may exceed the pane's width; `NoMoreThan`
   * gives the smaller of its width and the pane's.
   */
  function ChooseWidth(strategy: WidthStrategy, available: nat): (w: nat)
    ensures !strategy.Fixed? ==> w <= available
    ensures strategy.Full? ==> w == available
    ensures strategy.Fixed? ==> w == strategy.width
    ensures strategy.NoMoreThan? ==> w <= strategy.width && (w == strategy.width || w == available)
  {
    match strategy
    case Full => available
    case Fixed(width) => width
    case NoMoreThan(width) => if width <= available then width else available
  }
}
