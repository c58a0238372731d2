/** How a stream is told from another. */
module Streams {

  /** A stream's root, derived one-to-one from the harp id it is rooted by. */
  datatype Root = Root(harp: string)
}
