/** Small value types shared by the components. */
module Wrappers {

  /** A value that may be absent: a regex match that failed, a callback that did not fire. */
  datatype Option<+T> = None | Some(value: T)
}

/** The toast notifications the components raise, as values instead of effects. */
module Notify {

  import opened Wrappers

  /** One toast: title, description, whether it uses the destructive variant,
      and the display duration in milliseconds when the caller sets one. */
  datatype Toast = Toast(title: string, description: string, destructive: bool, durationMs: Option<nat>)
}
