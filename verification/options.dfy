/** An optional value: a lip centre that cannot be computed, a frame with no
    face, a frame that shows nothing new. */
module Options {

  datatype Option<+T> = None | Some(value: T)
}
